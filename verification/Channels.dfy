/** The multiplexer refines one private channel per request: whatever the number of concurrent
    callers and the order of the answers, what each caller observes is what it would observe alone
    on a connection of its own. */
module Channels {
  import opened Util
  import opened Wire
  import opened Client

  /** One request on a connection of its own. */
  datatype Channel =
    | Asked(tag: nat)
    | Ready(tag: nat, body: seq<byte>)
    | Open(tag: nat, body: seq<byte>, taken: nat,   // header returned, `taken` bytes read,
           asked: Option<nat>)                      // and a read of so many bytes outstanding

  type Net = map<nat, Channel>

  /** What the outside sees of a step. */
  datatype Action =
    | Internal
    | Ask(call: nat, tag: nat)
    | PeerAnswers(call: nat, body: seq<byte>)
    | HeaderReturned(call: nat, header: ResponseHeader)
    | BytesAsked(call: nat, size: nat)
    | BytesReturned(call: nat, bytes: seq<byte>)

  /** The private channels: no tag lookup, no shared stream. A read returns as many bytes as were
      asked for, the next ones. */
  predicate Allowed(m: Net, a: Action) {
    match a
    case Internal => true
    case Ask(c, t) => c !in m
    case PeerAnswers(c, body) => c in m && m[c].Asked?
    case HeaderReturned(c, h) =>
      c in m && m[c].Ready? && h == ResponseHeader(|m[c].body|, m[c].tag)
    case BytesAsked(c, n) =>
      c in m && m[c].Open? && m[c].asked.None?
      && m[c].taken < |m[c].body| && m[c].taken + n <= |m[c].body|
    case BytesReturned(c, bytes) =>
      c in m && m[c].Open? && m[c].asked == Some(|bytes|) && m[c].taken + |bytes| <= |m[c].body|
      && bytes == m[c].body[m[c].taken..m[c].taken + |bytes|]
  }

  function Do(m: Net, a: Action): Net
    requires Allowed(m, a)
  {
    match a
    case Internal => m
    case Ask(c, t) => m[c := Asked(t)]
    case PeerAnswers(c, body) => m[c := Ready(m[c].tag, body)]
    case HeaderReturned(c, h) => m[c := Open(m[c].tag, m[c].body, 0, None)]
    case BytesAsked(c, n) => m[c := m[c].(asked := Some(n))]
    case BytesReturned(c, bytes) => m[c := Open(m[c].tag, m[c].body, m[c].taken + |bytes|, None)]
  }

  ghost predicate Trace(m: Net, actions: seq<Action>)
    decreases |actions|
  {
    actions == [] || (Allowed(m, actions[0]) && Trace(Do(m, actions[0]), actions[1..]))
  }

  /** The observation of a concrete step: headers and bytes as the program computes them from the
      request table and the shared stream. */
  ghost function Observe(s: State, e: Event): Action
    requires Enabled(s, e)
  {
    match e
    case Send(c) => Ask(c, s.calls[c].tag)
    case Answer(t, body) =>
      if t in s.pending then PeerAnswers(s.pending[t].call, body) else Internal
    case Resume(c) => HeaderReturned(c, s.pending[s.calls[c].tag].header.value)
    case ReadBody(c, n) => BytesAsked(c, n)
    case BodyArrives(c) => BytesReturned(c, s.input[..s.calls[c].phase.want])
    case _ => Internal
  }

  function ChannelOf(call: Call): Channel {
    if call.answer.None? then Asked(call.tag)
    else if call.phase == Waiting || call.phase == Scheduled then Ready(call.tag, call.answer.value)
    else Open(call.tag, call.answer.value, |call.got|,
              if call.phase.Reading? then Some(call.phase.want) else None)
  }

  /** The channels that stand for a state; a reserved call has not asked yet. */
  function Abstract(s: State): Net {
    map c | c in s.calls && s.calls[c].phase != Reserved :: ChannelOf(s.calls[c])
  }

  lemma AbstractUpdate(s: State, s': State, c: nat)
    requires c in s'.calls && s'.calls == s.calls[c := s'.calls[c]] && s'.calls[c].phase != Reserved
    ensures Abstract(s') == Abstract(s)[c := ChannelOf(s'.calls[c])]
  {
  }

  lemma SameChannels(s: State, s': State, c: nat)
    requires c in s'.calls && s'.calls == s.calls[c := s'.calls[c]]
    requires (c in s.calls && s.calls[c].phase != Reserved) <==> s'.calls[c].phase != Reserved
    requires s'.calls[c].phase != Reserved ==> ChannelOf(s'.calls[c]) == ChannelOf(s.calls[c])
    ensures Abstract(s') == Abstract(s)
  {
  }

  lemma RefinesSend(s: State, c: nat)
    requires Enabled(s, Send(c)) && CallData(s, c)
    ensures c !in Abstract(s)
    ensures Abstract(DoSend(s, c)) == Abstract(s)[c := Asked(s.calls[c].tag)]
  {
    AbstractUpdate(s, DoSend(s, c), c);
  }

  lemma RefinesAnswer(s: State, t: nat, body: seq<byte>)
    requires Enabled(s, Answer(t, body)) && Honest(s, Answer(t, body)) && TagTable(s)
    ensures var c := s.pending[t].call;
            && c in Abstract(s) && Abstract(s)[c] == Asked(t)
            && Abstract(DoAnswer(s, t, body)) == Abstract(s)[c := Ready(t, body)]
  {
    AbstractUpdate(s, DoAnswer(s, t, body), s.pending[t].call);
  }

  lemma RefinesHeader(s: State)
    requires Inv(s) && Enabled(s, HeaderArrives)
    ensures Abstract(DoHeader(s)) == Abstract(s)
  {
    NextHeader(s);
    assert InPhase(s, s.queue[0].call, Waiting);
    SameChannels(s, DoHeader(s), s.queue[0].call);
  }

  lemma RefinesResume(s: State, c: nat)
    requires Enabled(s, Resume(c)) && CallData(s, c)
    ensures s.calls[c].answer.Some?
    ensures s.pending[s.calls[c].tag].header.value == HeaderOf(s.calls[c])
    ensures Abstract(s)[c] == Ready(s.calls[c].tag, s.calls[c].answer.value)
    ensures Abstract(DoResume(s, c)) == Abstract(s)[c := Open(s.calls[c].tag, s.calls[c].answer.value, 0, None)]
  {
    AbstractUpdate(s, DoResume(s, c), c);
  }

  lemma RefinesBody(s: State, c: nat)
    requires Enabled(s, BodyArrives(c)) && CallData(s, c)
    ensures var call, n := s.calls[c], s.calls[c].phase.want;
            && Abstract(s)[c] == Open(call.tag, call.answer.value, |call.got|, Some(n))
            && Abstract(DoBody(s, c)) == Abstract(s)[c := Open(call.tag, call.answer.value, |call.got| + n, None)]
  {
    AbstractUpdate(s, DoBody(s, c), c);
  }

  lemma RefinesRelease(s: State, c: nat)
    requires Enabled(s, Release(c)) && CallData(s, c)
    ensures Abstract(DoRelease(s, c)) == Abstract(s)
  {
    SameChannels(s, DoRelease(s, c), c);
  }

  lemma RefinesSilent(s: State, e: Event)
    requires Enabled(s, e) && (e.Reserve? || e.Deliver?)
    ensures Abstract(Apply(s, e)) == Abstract(s)
  {
    match e
    case Reserve(c, t, command, request) => SameChannels(s, Apply(s, e), c);
    case Deliver(n) => assert Apply(s, e).calls == s.calls;
  }

  ghost predicate Simulates(s: State, e: Event)
    requires Enabled(s, e)
  {
    Allowed(Abstract(s), Observe(s, e)) && Abstract(Apply(s, e)) == Do(Abstract(s), Observe(s, e))
  }

  /** The bytes of a body read, given that they are the next of its own answer. */
  lemma BodyAction(s: State, c: nat)
    requires Enabled(s, BodyArrives(c)) && CallData(s, c)
    requires var call, n := s.calls[c], s.calls[c].phase.want;
             && |call.got| + n <= |call.answer.value|
             && s.input[..n] == call.answer.value[|call.got|..|call.got| + n]
    ensures Simulates(s, BodyArrives(c))
  {
    RefinesBody(s, c);
  }

  lemma DataAt(s: State, c: nat)
    requires Data(s) && c in s.calls
    ensures CallData(s, c)
  {
  }

  lemma SimulatesBody(s: State, c: nat)
    requires Inv(s) && Enabled(s, BodyArrives(c))
    ensures Simulates(s, BodyArrives(c))
  {
    NextBody(s, c);
    DataAt(s, c);
    BodyAction(s, c);
  }

  /** Asking for `n` bytes leaves a read of exactly `n` bytes outstanding. */
  lemma SimulatesAsk(s: State, c: nat, n: nat)
    requires Enabled(s, ReadBody(c, n)) && CallData(s, c)
    ensures Simulates(s, ReadBody(c, n))
  {
    AbstractUpdate(s, Apply(s, ReadBody(c, n)), c);
  }

  lemma SimulatesResume(s: State, c: nat)
    requires Inv(s) && Enabled(s, Resume(c))
    ensures Simulates(s, Resume(c))
  {
    assert CallData(s, c);
    RefinesResume(s, c);
  }

  lemma SimulatesSendOrRelease(s: State, e: Event)
    requires Inv(s) && Enabled(s, e) && (e.Send? || e.Release?)
    ensures Simulates(s, e)
  {
    assert CallData(s, e.call);
    match e
    case Send(c) => RefinesSend(s, c);
    case Release(c) => RefinesRelease(s, c);
  }

  /** Forward simulation: every step of the multiplexer is an allowed action of the channels. */
  lemma Refines(s: State, e: Event)
    requires Inv(s) && Enabled(s, e) && Honest(s, e)
    ensures Allowed(Abstract(s), Observe(s, e))
    ensures Abstract(Apply(s, e)) == Do(Abstract(s), Observe(s, e))
  {
    match e
    case Answer(t, body) => RefinesAnswer(s, t, body);
    case HeaderArrives => RefinesHeader(s);
    case Resume(c) => SimulatesResume(s, c);
    case ReadBody(c, n) =>
      DataAt(s, c);
      SimulatesAsk(s, c, n);
    case BodyArrives(c) => SimulatesBody(s, c);
    case Send(_) => SimulatesSendOrRelease(s, e);
    case Release(_) => SimulatesSendOrRelease(s, e);
    case _ => RefinesSilent(s, e);
  }

  // ------------------------------------------------------------------ runs

  /** A run from `s`: every event enabled in turn and the peer honest. */
  ghost predicate Runs(s: State, es: seq<Event>)
    decreases |es|
  {
    es == [] || (Enabled(s, es[0]) && Honest(s, es[0]) && Runs(Apply(s, es[0]), es[1..]))
  }

  ghost function End(s: State, es: seq<Event>): State
    requires Runs(s, es)
    decreases |es|
  {
    if es == [] then s else End(Apply(s, es[0]), es[1..])
  }

  ghost function Observed(s: State, es: seq<Event>): seq<Action>
    requires Runs(s, es)
    decreases |es|
  {
    if es == [] then [] else [Observe(s, es[0])] + Observed(Apply(s, es[0]), es[1..])
  }

  ghost function DoAll(m: Net, actions: seq<Action>): Net
    requires Trace(m, actions)
    decreases |actions|
  {
    if actions == [] then m else DoAll(Do(m, actions[0]), actions[1..])
  }

  /** In every run the observations are a trace of private channels, and the final states agree. */
  lemma {:induction false} RunRefines(s: State, es: seq<Event>)
    requires Inv(s) && Runs(s, es)
    ensures Inv(End(s, es))
    ensures Trace(Abstract(s), Observed(s, es))
    ensures DoAll(Abstract(s), Observed(s, es)) == Abstract(End(s, es))
    decreases |es|
  {
    if es != [] {
      StepKeeps(s, es[0]);
      Refines(s, es[0]);
      RunRefines(Apply(s, es[0]), es[1..]);
      assert Observed(s, es)[1..] == Observed(Apply(s, es[0]), es[1..]);
    }
  }

  predicate Resumes(a: Action, c: nat) {
    a.HeaderReturned? && a.call == c
  }

  /** How many times a call gets its header in a trace. */
  function Resumptions(actions: seq<Action>, c: nat): nat {
    if actions == [] then 0 else (if Resumes(actions[0], c) then 1 else 0) + Resumptions(actions[1..], c)
  }

  function IsOpen(m: Net, c: nat): nat {
    if c in m && m[c].Open? then 1 else 0
  }

  /** On private channels a call gets its header at most once, and exactly once to be open. */
  lemma {:induction false} OneHeader(m: Net, actions: seq<Action>, c: nat)
    requires Trace(m, actions)
    ensures IsOpen(m, c) + Resumptions(actions, c) == IsOpen(DoAll(m, actions), c)
    decreases |actions|
  {
    if actions != [] {
      OneHeader(Do(m, actions[0]), actions[1..], c);
    }
  }

  /** All body bytes returned to a call, in order. */
  function BytesOf(actions: seq<Action>, c: nat): seq<byte> {
    if actions == [] then [] else
    (if actions[0].BytesReturned? && actions[0].call == c then actions[0].bytes else [])
    + BytesOf(actions[1..], c)
  }

  lemma Glue(b: seq<byte>, i: nat, j: nat, k: nat)
    requires i <= j <= k <= |b|
    ensures b[i..j] + b[j..k] == b[i..k]
  {
  }

  lemma {:induction false} BodyPrefix(m: Net, actions: seq<Action>, c: nat)
    requires Trace(m, actions)
    requires c in m && m[c].Open? && m[c].taken <= |m[c].body|
    ensures c in DoAll(m, actions)
    ensures var o := DoAll(m, actions)[c];
            && o.Open? && o.body == m[c].body && m[c].taken <= o.taken <= |o.body|
            && BytesOf(actions, c) == o.body[m[c].taken..o.taken]
    decreases |actions|
  {
    if actions != [] {
      var m1 := Do(m, actions[0]);
      BodyPrefix(m1, actions[1..], c);
      if actions[0].BytesReturned? && actions[0].call == c {
        var b, k, n := m[c].body, m[c].taken, |actions[0].bytes|;
        Glue(b, k, k + n, DoAll(m1, actions[1..])[c].taken);
      }
    }
  }

  lemma {:induction false} NothingBeforeHeader(m: Net, actions: seq<Action>, c: nat)
    requires Trace(m, actions) && IsOpen(m, c) == 0
    ensures c in DoAll(m, actions) && DoAll(m, actions)[c].Open? ==>
              var o := DoAll(m, actions)[c];
              o.taken <= |o.body| && BytesOf(actions, c) == o.body[..o.taken]
    ensures IsOpen(DoAll(m, actions), c) == 0 ==> BytesOf(actions, c) == []
    decreases |actions|
  {
    if actions != [] {
      var m1 := Do(m, actions[0]);
      if IsOpen(m1, c) == 0 {
        NothingBeforeHeader(m1, actions[1..], c);
      } else {
        BodyPrefix(m1, actions[1..], c);
        OneHeader(m1, actions[1..], c);
        var o := DoAll(m1, actions[1..])[c];
        assert o.body[0..o.taken] == o.body[..o.taken];
      }
    }
  }

  lemma FinishedData(s: State, c: nat)
    requires Data(s) && InPhase(s, c, Finished)
    ensures Answer0(s.calls[c]) && s.calls[c].got == s.calls[c].answer.value
  {
    assert CallData(s, c);
  }

  /** Main result on runs from the start: a call is resumed at most once; once it has finished it
      was resumed exactly once, with the header of its own tag and the length of the body answered
      to it, and the bytes it read are that body. */
  lemma EachCallServed(es: seq<Event>, c: nat)
    requires Runs(INITIAL, es)
    ensures Resumptions(Observed(INITIAL, es), c) <= 1
    ensures var s := End(INITIAL, es);
            InPhase(s, c, Finished) ==>
              && Resumptions(Observed(INITIAL, es), c) == 1
              && s.calls[c].answer.Some?
              && s.calls[c].header == Some(ResponseHeader(|s.calls[c].answer.value|, s.calls[c].tag))
              && BytesOf(Observed(INITIAL, es), c) == s.calls[c].answer.value
  {
    InitialInv();
    assert Abstract(INITIAL) == map[];
    RunRefines(INITIAL, es);
    OneHeader(map[], Observed(INITIAL, es), c);
    NothingBeforeHeader(map[], Observed(INITIAL, es), c);
    var s := End(INITIAL, es);
    if InPhase(s, c, Finished) {
      FinishedData(s, c);
      assert Abstract(s)[c] == ChannelOf(s.calls[c]);
      var b := s.calls[c].answer.value;
      assert b[..|b|] == b;
    }
  }

  // ------------------------------------------------------------------ a read gets what it asked for

  /** While a caller's body read is outstanding, only its completion touches the caller or the length
      left to read. */
  lemma StaysReading(s: State, e: Event, c: nat)
    requires Inv(s) && Enabled(s, e) && Honest(s, e) && InReading(s, c) && e != BodyArrives(c)
    ensures c in Apply(s, e).calls && Apply(s, e).calls[c] == s.calls[c]
    ensures Apply(s, e).unreadLength == s.unreadLength
  {
    OneActive(s, c);
  }

  lemma {:induction false} RunStaysReading(s: State, es: seq<Event>, c: nat)
    requires Inv(s) && Runs(s, es) && InReading(s, c)
    requires forall i | 0 <= i < |es| :: es[i] != BodyArrives(c)
    ensures Inv(End(s, es)) && c in End(s, es).calls && End(s, es).calls[c] == s.calls[c]
    ensures End(s, es).unreadLength == s.unreadLength
    decreases |es|
  {
    if es != [] {
      StepKeeps(s, es[0]);
      StaysReading(s, es[0], c);
      RunStaysReading(Apply(s, es[0]), es[1..], c);
    }
  }

  lemma AskedBody(s: State, c: nat, n: nat)
    requires Inv(s) && Enabled(s, ReadBody(c, n))
    ensures var s1 := Apply(s, ReadBody(c, n));
            && Inv(s1) && InReading(s1, c) && s1.calls[c] == s.calls[c].(phase := Reading(n))
            && s1.unreadLength == s.unreadLength
    ensures Answer0(s.calls[c]) && |s.calls[c].got| + s.unreadLength == |s.calls[c].answer.value|
  {
    DataAt(s, c);
    StepKeeps(s, ReadBody(c, n));
  }

  /** Completing its read gives caller `c`, which was `call`, the next `n` bytes of its answer; a read
      of all that is left ends the body. */
  ghost predicate Gets(s: State, c: nat, call: Call, n: nat) {
    && Enabled(s, BodyArrives(c)) && Answer0(call) && |call.got| + n <= |call.answer.value|
    && var bytes := call.answer.value[|call.got|..|call.got| + n];
       && Observe(s, BodyArrives(c)) == BytesReturned(c, bytes)
       && Apply(s, BodyArrives(c)).calls[c] ==
            call.(got := call.got + bytes,
                  phase := if |call.got| + n == |call.answer.value| then Releasing else Draining)
  }

  lemma CompletedBody(s: State, c: nat, call: Call, n: nat)
    requires Inv(s) && Enabled(s, BodyArrives(c)) && s.calls[c] == call.(phase := Reading(n))
    requires Answer0(call) && |call.got| + s.unreadLength == |call.answer.value|
    ensures Gets(s, c, call, n)
  {
    NextBody(s, c);
  }

  /** Over every run from the moment a caller asks for `n` bytes to the completion of its read. */
  lemma ReadGetsWhatItAsked(s: State, c: nat, n: nat, es: seq<Event>)
    requires Inv(s) && Enabled(s, ReadBody(c, n)) && Runs(Apply(s, ReadBody(c, n)), es)
    requires forall i | 0 <= i < |es| :: es[i] != BodyArrives(c)
    requires Enabled(End(Apply(s, ReadBody(c, n)), es), BodyArrives(c))
    ensures Gets(End(Apply(s, ReadBody(c, n)), es), c, s.calls[c], n)
  {
    AskedBody(s, c, n);
    var call, s1 := s.calls[c], Apply(s, ReadBody(c, n));
    RunStaysReading(s1, es, c);
    CompletedBody(End(s1, es), c, call, n);
  }

  // ------------------------------------------------------------------ single reader, progress

  /** A header reader exists exactly when some request is written and unfinished and no body is
      being read; no table entry, no reader; and never two transport reads at once. */
  lemma SingleReader(s: State)
    requires Inv(s)
    ensures s.reader != NoReader <==>
              && (exists t :: t in s.pending && s.calls[s.pending[t].call].phase != Reserved)
              && !(exists c :: c in s.calls && InBody(s.calls[c].phase))
    ensures s.pending == map[] ==> s.reader == NoReader
    ensures forall c, d :: InReading(s, c) && InReading(s, d) ==> c == d
    ensures forall c :: InReading(s, c) ==> s.reader != Armed
  {
    if s.reader == Armed {
      var c :| InPhase(s, c, Waiting);
      assert s.calls[c].tag in s.pending;
    }
    forall c, d | InReading(s, c) && InReading(s, d) ensures c == d {
      OneActive(s, c);
    }
  }

  /** Starting a reader never overwrites a live one: every step that arms it finds it absent, or
      parked with its delivery done and resumed in the same step. */
  lemma ArmingFindsNoLiveReader(s: State, e: Event)
    requires Inv(s) && Enabled(s, e) && Honest(s, e)
    requires (e.Send? && |s.pending| == 1) || e.Resume? || e.Release?
    ensures s.reader != Armed && (e.Resume? <==> s.reader == Parked)
  {
    match e
    case Send(c) => LoneSender(s, c);
    case Resume(c) =>
    case Release(c) =>
  }

  function Weight(call: Call): nat {
    match call.phase
    case Reserved => 7
    case Waiting => 6
    case Scheduled => 5
    case Draining => 3
    case Reading(_) => 2
    case Releasing => 1
    case Finished => 0
  }

  /** Work left on the client once the peer stays silent and no new call starts. */
  ghost function Work(s: State): nat {
    SumMap(s.calls, Weight) + 2 * |s.input|
  }

  /** The steps the client takes by itself. A read of no bytes asks for nothing. */
  predicate Own(e: Event) {
    match e
    case ReadBody(_, n) => n > 0
    case Send(_) => true
    case HeaderArrives => true
    case Resume(_) => true
    case BodyArrives(_) => true
    case Release(_) => true
    case _ => false
  }

  lemma WorkDrops(s: State, s': State, c: nat)
    requires c in s.calls && c in s'.calls && s'.calls == s.calls[c := s'.calls[c]]
    requires Weight(s'.calls[c]) + 2 * |s'.input| < Weight(s.calls[c]) + 2 * |s.input|
    ensures Work(s') < Work(s)
  {
    SumMapUpdate(s.calls, c, s'.calls[c], Weight);
  }

  lemma HeaderWork(s: State)
    requires Inv(s) && Enabled(s, HeaderArrives)
    ensures Work(DoHeader(s)) < Work(s)
  {
    NextHeader(s);
    assert InPhase(s, s.queue[0].call, Waiting);
    WorkDrops(s, DoHeader(s), s.queue[0].call);
  }

  lemma CallWork(s: State, e: Event)
    requires Enabled(s, e) && Own(e) && !e.HeaderArrives?
    requires e.BodyArrives? ==> s.calls[e.call].phase.want > 0
    ensures Work(Apply(s, e)) < Work(s)
  {
    match e
    case Send(c) => WorkDrops(s, DoSend(s, c), c);
    case Resume(c) => WorkDrops(s, DoResume(s, c), c);
    case ReadBody(c, n) => WorkDrops(s, Apply(s, e), c);
    case BodyArrives(c) => WorkDrops(s, DoBody(s, c), c);
    case Release(c) => WorkDrops(s, DoRelease(s, c), c);
  }

  /** Every own step of the client lowers the work left, so own steps alone come to an end. */
  lemma OwnStepsEnd(s: State, e: Event)
    requires Inv(s) && Enabled(s, e) && Own(e)
    requires e.BodyArrives? ==> s.calls[e.call].phase.want > 0
    ensures Work(Apply(s, e)) < Work(s)
  {
    if e.HeaderArrives? { HeaderWork(s); } else { CallWork(s, e); }
  }

  /** With no step of its own left, no caller is between its header and its release. */
  lemma NobodyActive(s: State, c: nat)
    requires Inv(s) && s.lock.None? && c in s.calls && Active(s.calls[c].phase)
    ensures exists e :: Own(e) && Enabled(s, e)
  {
    assert CallData(s, c);
    OneActive(s, c);
    var e := match s.calls[c].phase
      case Scheduled => Resume(c)
      case Draining => ReadBody(c, s.unreadLength)
      case Reading(_) => BodyArrives(c)
      case _ => Release(c);
    if InReading(s, c) {
      assert |Unread(s)| == s.unreadLength;
    }
    assert Own(e) && Enabled(s, e);
  }

  lemma HolderSends(s: State)
    requires Inv(s) && s.lock.Some?
    ensures exists e :: Own(e) && Enabled(s, e)
  {
    assert s.calls[s.lock.value].phase == Reserved;
    assert Own(Send(s.lock.value)) && Enabled(s, Send(s.lock.value));
  }

  /** An answer in flight finds the reader armed, unless somebody is still active. */
  lemma HeaderReady(s: State)
    requires Inv(s) && s.queue != [] && Unread(s) == []
    requires forall c | c in s.calls :: !Active(s.calls[c].phase)
    ensures exists e :: Own(e) && Enabled(s, e)
  {
    assert InPhase(s, s.queue[0].call, Waiting);
    assert s.input == AnswerBytes(s.queue[0]) + Flatten(s.queue[1..]);
    assert Own(HeaderArrives) && Enabled(s, HeaderArrives);
  }

  /** A client that can take no step of its own has served every answered call to the last byte:
      requesters that keep reading are never stuck, and no lock wait blocks them. */
  lemma NothingLost(s: State)
    requires Inv(s)
    requires forall e :: Own(e) ==> !Enabled(s, e)
    ensures s.input == [] && s.lock.None?
    ensures forall c | c in s.calls :: s.calls[c].answer.Some? ==> s.calls[c].phase == Finished
  {
    if s.lock.Some? { HolderSends(s); }
    forall c | c in s.calls ensures !Active(s.calls[c].phase) {
      if Active(s.calls[c].phase) { NobodyActive(s, c); }
    }
    assert Unread(s) == [];
    if s.queue != [] { HeaderReady(s); }
    forall c | c in s.calls && s.calls[c].answer.Some? ensures s.calls[c].phase == Finished {
      assert CallData(s, c);
      assert s.calls[c].phase == Waiting ==> InQueue(s.queue, c);
    }
  }
}
