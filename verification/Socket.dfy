/** The read side of src/transport/PlainSocketTransport.cpp as a step machine: data events of any
    sizes are turned into reads of exact sizes, while end, close and error events compete for the
    same suspended coroutine.

    Reads are numbered in the order `rawRead` is called; the number stands for the coroutine handle.
    `received`, `completed` and `scheduled` are history. */
module Socket {
  import opened Util
  import opened Wire

  /** How a read ended: with its bytes or with ClosedTransportException. */
  datatype Result = Full(bytes: seq<byte>) | Closed

  datatype Done = Done(size: nat, result: Result)

  datatype State = State(
    size: nat, offset: nat, buffer: seq<byte>,   // readBufferSize, readBufferOffset, what is filled
    begun: Option<nat>,       // a read between lines 93 and 97
    handle: Option<nat>,      // readPromiseHandle
    flag: bool,               // readFlag
    reading: bool,            // the tcp handle is reading
    closing: bool, eof: bool,
    started: nat,
    received: seq<byte>, completed: seq<Done>, scheduled: seq<nat>)

  const INITIAL := State(0, 0, [], None, None, false, false, false, false, 0, [], [], [])

  datatype Event =
    | Read(n: nat)              // rawRead up to its suspension
    | Suspend                   // the lambda of lines 97-119
    | Data(chunk: seq<byte>)
    | EndOfStream
    | CloseCalled               // close()
    | CloseEvent
    | ErrorEvent

  predicate Enabled(s: State, e: Event) {
    match e
    case Read(n) => !s.flag                  // the assertion of line 85
    case Suspend => s.begun.Some?
    case Data(chunk) =>                      // the kernel fills what the allocation callback offers
      s.reading && !s.closing && !s.eof && 0 < |chunk| <= s.size - s.offset
    case _ => true
  }

  /** `raiseClosedTransportException`. */
  function RaiseClosed(s: State): State {
    s.(size := 0, offset := 0, buffer := [], handle := None, flag := false,
       completed := s.completed + [Done(s.size, Closed)])
  }

  function Schedule(s: State, h: nat): State {
    s.(scheduled := s.scheduled + [h])
  }

  /** What end, close and error events do to a suspended read. */
  function Fail(s: State): State {
    if s.handle.Some? then Schedule(RaiseClosed(s), s.handle.value) else s
  }

  function DoRead(s: State, n: nat): State {
    var r := s.(started := s.started + 1);
    if n == 0 then r.(completed := s.completed + [Done(0, Full([]))])
    else r.(flag := true, buffer := [], offset := 0, size := n, begun := Some(s.started))
  }

  /** On a closing handle the read has no caller yet, since it is still inside its creating call: the
      exception is thrown out of the lambda and the read to the creator, and the pool has no part in
      it. */
  function DoSuspend(s: State): State {
    var r := s.(begun := None);
    if s.closing then RaiseClosed(r) else r.(handle := s.begun, reading := true)
  }

  function DoData(s: State, chunk: seq<byte>): State {
    var r := s.(received := s.received + chunk, buffer := s.buffer + chunk, offset := s.offset + |chunk|);
    if r.offset == s.size && s.handle.Some? then
      Schedule(r.(size := 0, offset := 0, buffer := [], handle := None, reading := false, flag := false,
                  completed := s.completed + [Done(s.size, Full(r.buffer))]), s.handle.value)
    else r
  }

  function OnClose(s: State): State {
    Fail(s).(closing := true, reading := false)
  }

  function Apply(s: State, e: Event): State {
    match e
    case Read(n) => DoRead(s, n)
    case Suspend => DoSuspend(s)
    case Data(chunk) => DoData(s, chunk)
    case EndOfStream => Fail(s).(eof := true, reading := false)
    case CloseCalled => s.(closing := true, reading := false)
    case CloseEvent => OnClose(s)
    case ErrorEvent => OnClose(s)
  }

  // ------------------------------------------------------------------ the invariant

  /** The bytes of the reads that completed with data, in order. */
  function Fulls(log: seq<Done>): seq<byte> {
    if log == [] then [] else
    (if log[0].result.Full? then log[0].result.bytes else []) + Fulls(log[1..])
  }

  lemma {:induction false} FullsAppend(log: seq<Done>, d: Done)
    ensures Fulls(log + [d]) == Fulls(log) + (if d.result.Full? then d.result.bytes else [])
  {
    if log == [] {
      assert log + [d] == [d];
      assert Fulls([d][1..]) == [];
    } else {
      assert (log + [d])[1..] == log[1..] + [d];
      FullsAppend(log[1..], d);
    }
  }

  ghost predicate AnyClosed(log: seq<Done>) {
    exists i | 0 <= i < |log| :: log[i].result.Closed?
  }

  /** The fields of the read in progress. */
  predicate Fields(s: State) {
    && s.offset == |s.buffer| <= s.size
    && (s.flag <==> s.begun.Some? || s.handle.Some?)
    && !(s.begun.Some? && s.handle.Some?)
    && (s.begun.Some? ==> s.begun.value == |s.completed| && s.offset == 0 < s.size)
    && (s.handle.Some? ==> s.handle.value == |s.completed| && s.offset < s.size)
    && (!s.flag ==> s.size == 0)
    && (s.reading <==> s.handle.Some? && !s.closing)
    && s.started == |s.completed| + (if s.flag then 1 else 0)
  }

  /** Every read handed to the pool is over, and was handed over once. */
  ghost predicate ScheduledOnce(s: State) {
    && (forall i, j | 0 <= i < j < |s.scheduled| :: s.scheduled[i] < s.scheduled[j])
    && (forall i | 0 <= i < |s.scheduled| :: s.scheduled[i] < |s.completed|)
  }

  /** Completed reads took the stream in order; nothing is received once a read has failed. */
  ghost predicate Slices(s: State) {
    && (forall i | 0 <= i < |s.completed| && s.completed[i].result.Full? ::
          |s.completed[i].result.bytes| == s.completed[i].size)
    && (forall i, j | 0 <= i < j < |s.completed| && s.completed[i].result.Closed? ::
          s.completed[j].result.Closed? || s.completed[j].size == 0)
    && Fulls(s.completed) <= s.received
    && (AnyClosed(s.completed) ==> s.closing || s.eof)
    && (!AnyClosed(s.completed) ==> s.received == Fulls(s.completed) + s.buffer)
  }

  ghost predicate Inv(s: State) {
    Fields(s) && ScheduledOnce(s) && Slices(s)
  }

  /** Appending a failed read to the log. */
  lemma ClosedKeeps(s: State, s': State)
    requires Slices(s) && s'.completed == s.completed + [Done(s.size, Closed)]
    requires s'.received == s.received && (s'.closing || s'.eof)
    ensures Slices(s')
  {
    FullsAppend(s.completed, Done(s.size, Closed));
    assert s'.completed[|s.completed|].result.Closed?;
    assert AnyClosed(s'.completed);
  }

  /** Appending a completed read whose bytes are the filled buffer. */
  lemma FullKeeps(s: State, s': State, d: Done)
    requires Slices(s) && s'.completed == s.completed + [d] && d.result.Full?
    requires |d.result.bytes| == d.size && s'.buffer == []
    requires s'.closing == s.closing && s'.eof == s.eof && s.received <= s'.received
    requires d.size > 0 ==> !AnyClosed(s.completed)
    requires !AnyClosed(s.completed) ==> s'.received == Fulls(s.completed) + d.result.bytes
    ensures Slices(s')
  {
    FullsAppend(s.completed, d);
    if AnyClosed(s.completed) {
      var i :| 0 <= i < |s.completed| && s.completed[i].result.Closed?;
      assert s'.completed[i].result.Closed?;
    } else {
      assert forall i | 0 <= i < |s'.completed| :: s'.completed[i].result.Full?;
    }
  }

  lemma StepFields(s: State, e: Event)
    requires Fields(s) && ScheduledOnce(s) && Enabled(s, e)
    ensures Fields(Apply(s, e)) && ScheduledOnce(Apply(s, e))
  {
  }

  lemma FailSlices(s: State, s': State)
    requires Slices(s) && s'.received == s.received && (s'.closing || s'.eof)
    requires s.closing ==> s'.closing
    requires if s.handle.Some? then s'.completed == s.completed + [Done(s.size, Closed)]
             else s'.completed == s.completed && s'.buffer == s.buffer
    ensures Slices(s')
  {
    if s.handle.Some? { ClosedKeeps(s, s'); }
  }

  lemma StepSlices(s: State, e: Event)
    requires Fields(s) && Slices(s) && Enabled(s, e)
    ensures Slices(Apply(s, e))
  {
    var s' := Apply(s, e);
    match e
    case Read(n) =>
      if n == 0 { FullKeeps(s, s', Done(0, Full([]))); }
    case Suspend => if s.closing { ClosedKeeps(s, s'); }
    case Data(chunk) =>
      if s'.completed != s.completed {
        FullKeeps(s, s', Done(s.size, Full(s.buffer + chunk)));
      } else {
        assert s'.received == Fulls(s.completed) + s'.buffer;
      }
    case CloseCalled =>
    case _ => FailSlices(s, s');
  }

  lemma StepKeeps(s: State, e: Event)
    requires Inv(s) && Enabled(s, e)
    ensures Inv(Apply(s, e))
  {
    StepFields(s, e);
    StepSlices(s, e);
  }

  // ------------------------------------------------------------------ runs

  ghost predicate Runs(s: State, es: seq<Event>)
    decreases |es|
  {
    es == [] || (Enabled(s, es[0]) && Runs(Apply(s, es[0]), es[1..]))
  }

  function End(s: State, es: seq<Event>): State
    decreases |es|
  {
    if es == [] then s else End(Apply(s, es[0]), es[1..])
  }

  lemma {:induction false} RunKeeps(s: State, es: seq<Event>)
    requires Inv(s) && Runs(s, es)
    ensures Inv(End(s, es))
    decreases |es|
  {
    if es != [] {
      StepKeeps(s, es[0]);
      RunKeeps(Apply(s, es[0]), es[1..]);
    }
  }

  /** Where a read begins in the stream: after the sizes of the reads before it. */
  function Offset(log: seq<Done>): nat {
    if log == [] then 0 else log[0].size + Offset(log[1..])
  }

  lemma {:induction false} FullsAt(log: seq<Done>, i: nat)
    requires i < |log| && log[i].result.Full? && log[i].size > 0
    requires forall k | 0 <= k < |log| && log[k].result.Full? :: |log[k].result.bytes| == log[k].size
    requires forall k, j | 0 <= k < j < |log| && log[k].result.Closed? ::
               log[j].result.Closed? || log[j].size == 0
    ensures Offset(log[..i]) + log[i].size <= |Fulls(log)|
    ensures log[i].result.bytes == Fulls(log)[Offset(log[..i])..Offset(log[..i]) + log[i].size]
  {
    assert log[0].result.Full?;
    if i > 0 {
      FullsAt(log[1..], i - 1);
      assert log[..i][1..] == log[1..][..i - 1];
      var a, b := log[0].result.bytes, Fulls(log[1..]);
      var o := Offset(log[1..][..i - 1]);
      assert (a + b)[|a| + o..|a| + o + log[i].size] == b[o..o + log[i].size];
    } else {
      assert log[..0] == [];
    }
  }

  /** Main result: after any events in any order, every read that returned data returned exactly its
      slice of the received stream, the slices being consecutive, with no byte of another read. */
  lemma ReadsAreSlices(es: seq<Event>, i: nat)
    requires Runs(INITIAL, es) && i < |End(INITIAL, es).completed|
    requires End(INITIAL, es).completed[i].result.Full?
    ensures var s := End(INITIAL, es);
            var d, o := s.completed[i], Offset(s.completed[..i]);
            if d.size == 0 then d.result.bytes == []
            else o + d.size <= |s.received| && d.result.bytes == s.received[o..o + d.size]
  {
    RunKeeps(INITIAL, es);
    var s := End(INITIAL, es);
    if s.completed[i].size > 0 {
      FullsAt(s.completed, i);
    }
  }

  /** The segmentation does not matter: two runs that read the same sizes from streams of which one
      starts the other return the same bytes for the same read. */
  lemma SegmentationIrrelevant(es: seq<Event>, fs: seq<Event>, i: nat)
    requires Runs(INITIAL, es) && Runs(INITIAL, fs)
    requires End(INITIAL, es).received <= End(INITIAL, fs).received
    requires i < |End(INITIAL, es).completed| && i < |End(INITIAL, fs).completed|
    requires forall k | 0 <= k <= i :: End(INITIAL, es).completed[k].size == End(INITIAL, fs).completed[k].size
    requires End(INITIAL, es).completed[i].result.Full? && End(INITIAL, fs).completed[i].result.Full?
    ensures End(INITIAL, es).completed[i] == End(INITIAL, fs).completed[i]
  {
    ReadsAreSlices(es, i);
    ReadsAreSlices(fs, i);
    SameOffsets(End(INITIAL, es).completed[..i], End(INITIAL, fs).completed[..i]);
  }

  lemma {:induction false} SameOffsets(a: seq<Done>, b: seq<Done>)
    requires |a| == |b| && forall k | 0 <= k < |a| :: a[k].size == b[k].size
    ensures Offset(a) == Offset(b)
  {
    if a != [] {
      SameOffsets(a[1..], b[1..]);
    }
  }

  /** In every reachable state the flag is up exactly while a read is outstanding, the offset stays
      within the buffer, the assertions of lines 131, 196 and 213 hold, and every read number is
      either outstanding or has completed exactly once and been scheduled at most once. */
  lemma OneOutcomeEach(es: seq<Event>)
    requires Runs(INITIAL, es)
    ensures var s := End(INITIAL, es);
            && s.offset <= s.size
            && (s.flag <==> s.started == |s.completed| + 1) && |s.completed| <= s.started
            && (forall chunk :: Enabled(s, Data(chunk)) ==> s.handle.Some? && s.flag)
            && (s.handle.Some? ==> s.flag && s.handle.value == |s.completed|
                                   && s.handle.value !in s.scheduled)
            && (forall i, j | 0 <= i < j < |s.scheduled| :: s.scheduled[i] != s.scheduled[j])
            && (forall h | h in s.scheduled :: h < |s.completed|)
  {
    RunKeeps(INITIAL, es);
  }

  /** What becomes of an outstanding read after a failure. A suspended one fails at the event. One
      between its assignment of the buffer and its suspension fails when it suspends, if the handle is
      closing by then; after a mere end of stream it does suspend, and libuv reports the end again. */
  function AfterFailure(s: State, e: Event): State {
    if s.begun.None? then Apply(s, e)
    else if e.EndOfStream? && !s.closing then Apply(Apply(Apply(s, e), Suspend), EndOfStream)
    else Apply(Apply(s, e), Suspend)
  }

  /** An outstanding read never outlives the connection: it ends with the exception, once. It is
      scheduled unless it was not suspended, when its creator gets the exception at once. */
  lemma FailureReachesReader(s: State, e: Event)
    requires Inv(s) && s.flag && (e.CloseEvent? || e.ErrorEvent? || e.EndOfStream?)
    ensures var s' := AfterFailure(s, e);
            && !s'.flag && s'.handle.None? && s'.begun.None?
            && s'.completed == s.completed + [Done(s.size, Closed)]
            && s'.scheduled == s.scheduled +
                 (if s.handle.Some? then [s.handle.value]
                  else if e.EndOfStream? && !s.closing then [s.begun.value] else [])
  {
    assert s.begun.Some? ==> Apply(s, e).scheduled == s.scheduled;
    assert s.scheduled + [] == s.scheduled;
  }

  /** Once the stream has ended or the handle is closing, no read that wants bytes is given any. */
  lemma NothingAfterFailure(s: State, e: Event)
    requires Inv(s) && Enabled(s, e) && (s.closing || s.eof)
    ensures var s' := Apply(s, e);
            && (s'.closing || s'.eof) && s'.received == s.received
            && (s'.completed == s.completed
                || s'.completed == s.completed + [Done(s.size, Closed)]
                || s'.completed == s.completed + [Done(0, Full([]))])
  {
  }

  // ------------------------------------------------------------------ reads on an open socket

  /** A suspended read on an open connection takes whatever the kernel has for it, up to its size, and
      when the last byte is there it completes and is resumed, and reading is off. */
  lemma OpenReadCompletes(s: State, chunk: seq<byte>)
    requires Inv(s) && s.handle.Some? && !s.closing && !s.eof && 0 < |chunk| <= s.size - s.offset
    ensures Enabled(s, Data(chunk))
    ensures var s' := Apply(s, Data(chunk));
            if s.offset + |chunk| == s.size
            then s'.completed == s.completed + [Done(s.size, Full(s.buffer + chunk))]
                 && s'.scheduled == s.scheduled + [s.handle.value] && !s'.flag && !s'.reading
            else s'.handle == s.handle && s'.buffer == s.buffer + chunk && s'.completed == s.completed
                 && s'.scheduled == s.scheduled && s'.size == s.size && s'.reading
  {
  }

  function Joined(chunks: seq<seq<byte>>): seq<byte> {
    if chunks == [] then [] else chunks[0] + Joined(chunks[1..])
  }

  function Arrivals(chunks: seq<seq<byte>>): seq<Event> {
    if chunks == [] then [] else [Data(chunks[0])] + Arrivals(chunks[1..])
  }

  /** However its bytes are cut into chunks, a suspended read on an open connection gets all of them
      and completes with the last one. */
  lemma {:induction false} AnyCuttingCompletes(s: State, chunks: seq<seq<byte>>)
    requires Inv(s) && s.handle.Some? && !s.closing && !s.eof
    requires chunks != [] && forall i | 0 <= i < |chunks| :: chunks[i] != []
    requires s.offset + |Joined(chunks)| == s.size
    ensures Runs(s, Arrivals(chunks))
    ensures var s' := End(s, Arrivals(chunks));
            && s'.completed == s.completed + [Done(s.size, Full(s.buffer + Joined(chunks)))]
            && s'.scheduled == s.scheduled + [s.handle.value] && !s'.flag
    decreases |chunks|
  {
    var s1 := Apply(s, Data(chunks[0]));
    OpenReadCompletes(s, chunks[0]);
    if |chunks| == 1 {
      assert Joined(chunks[1..]) == [] && Arrivals(chunks[1..]) == [];
      assert chunks[0] + [] == chunks[0];
    } else {
      assert |Joined(chunks[1..])| >= |chunks[1..][0]| > 0;
      StepKeeps(s, Data(chunks[0]));
      AnyCuttingCompletes(s1, chunks[1..]);
      assert s.buffer + chunks[0] + Joined(chunks[1..]) == s.buffer + (chunks[0] + Joined(chunks[1..]));
    }
    assert Arrivals(chunks)[1..] == Arrivals(chunks[1..]);
  }

  // ------------------------------------------------------------------ reads after a close

  predicate Closes(e: Event) {
    e.CloseCalled? || e.CloseEvent? || e.ErrorEvent?
  }

  lemma {:induction false} StaysClosing(s: State, es: seq<Event>)
    requires Inv(s) && s.closing && Runs(s, es)
    ensures Inv(End(s, es)) && End(s, es).closing
    decreases |es|
  {
    if es != [] {
      StepKeeps(s, es[0]);
      StaysClosing(Apply(s, es[0]), es[1..]);
    }
  }

  /** Read `h`, of `n` bytes, is between its assignment of the buffer and its suspension, or has ended
      with the exception; the pool has never had it and no event can find it. */
  predicate FailsUnseen(s: State, h: nat, n: nat) {
    && s.handle != Some(h) && h !in s.scheduled
    && (if s.begun == Some(h) then h == |s.completed| && s.size == n
        else h < |s.completed| && s.completed[h] == Done(n, Closed))
  }

  lemma StepFailsUnseen(s: State, e: Event, h: nat, n: nat)
    requires Inv(s) && s.closing && Enabled(s, e) && FailsUnseen(s, h, n)
    ensures FailsUnseen(Apply(s, e), h, n)
    ensures e.Suspend? && s.begun == Some(h) ==> Apply(s, e).completed[h] == Done(n, Closed)
  {
  }

  lemma {:induction false} RunFailsUnseen(s: State, es: seq<Event>, h: nat, n: nat)
    requires Inv(s) && s.closing && Runs(s, es) && FailsUnseen(s, h, n)
    ensures FailsUnseen(End(s, es), h, n)
    ensures Suspend in es && s.begun == Some(h) ==> End(s, es).begun != Some(h)
    decreases |es|
  {
    if es != [] {
      StepKeeps(s, es[0]);
      StepFailsUnseen(s, es[0], h, n);
      StillClosing(s, es[0]);
      RunFailsUnseen(Apply(s, es[0]), es[1..], h, n);
      if es[0] == Suspend { NeverBegunAgain(Apply(s, es[0]), es[1..], h); }
    }
  }

  lemma StillClosing(s: State, e: Event)
    requires s.closing
    ensures Apply(s, e).closing
  {
  }

  lemma {:induction false} NeverBegunAgain(s: State, es: seq<Event>, h: nat)
    requires Inv(s) && Runs(s, es) && h < |s.completed|
    ensures End(s, es).begun != Some(h)
    decreases |es|
  {
    if es != [] {
      StepKeeps(s, es[0]);
      NeverBegunAgain(Apply(s, es[0]), es[1..], h);
    }
  }

  /** A read of `n` bytes begun after `es`, and what has become of it after `fs` more. */
  ghost predicate LateRead(s: State, es: seq<Event>, n: nat, fs: seq<Event>) {
    n > 0 && Runs(s, es) && Enabled(End(s, es), Read(n)) && Runs(Apply(End(s, es), Read(n)), fs) ==>
      var h, s' := End(s, es).started, End(Apply(End(s, es), Read(n)), fs);
      && FailsUnseen(s', h, n)
      && (Suspend in fs ==> h < |s'.completed| && s'.completed[h] == Done(n, Closed))
  }

  /** From here on every read that wants bytes fails at its suspension, unseen by pool and events. */
  ghost predicate EveryReadFails(s: State) {
    forall es, n: nat, fs :: LateRead(s, es, n, fs)
  }

  lemma BeginsUnseen(s: State, n: nat)
    requires Inv(s) && s.closing && Enabled(s, Read(n)) && n > 0
    ensures Inv(Apply(s, Read(n))) && Apply(s, Read(n)).closing && Apply(s, Read(n)).begun == Some(s.started)
    ensures FailsUnseen(Apply(s, Read(n)), s.started, n)
  {
    StepKeeps(s, Read(n));
  }

  lemma ClosingFailsReads(s: State)
    requires Inv(s) && s.closing
    ensures EveryReadFails(s)
  {
    forall es, n: nat, fs ensures LateRead(s, es, n, fs) {
      if n > 0 && Runs(s, es) && Enabled(End(s, es), Read(n)) && Runs(Apply(End(s, es), Read(n)), fs) {
        StaysClosing(s, es);
        BeginsUnseen(End(s, es), n);
        RunFailsUnseen(Apply(End(s, es), Read(n)), fs, End(s, es).started, n);
      }
    }
  }

  /** After a close, a close event or an error, with or without a read outstanding, every read of bytes
      begun later ends with the exception when it suspends, is never scheduled and is never the handle
      that events resume. */
  lemma ClosedForGood(s: State, e: Event)
    requires Inv(s) && Closes(e)
    ensures EveryReadFails(Apply(s, e))
  {
    StepKeeps(s, e);
    ClosingFailsReads(Apply(s, e));
  }
}
