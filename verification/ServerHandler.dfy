/** src/proto/ServerHandler.cpp and src/proto/shadow/PingHandler.cpp in their own form: a class whose
    methods update the handler table, the list of finished handlers and the write lock in place. */
module ServerHandlers {
  import opened Wire
  import opened Server

  class ServerHandler {
    var pendingResponses: map<nat, Handler>
    var finishedHandlers: seq<nat>
    var writeLock: bool
    var writeLockWaiters: seq<nat>
    var position: Listen
    var stopped: bool

    ghost function View(): State
      reads this
    {
      State(pendingResponses, finishedHandlers, writeLock, writeLockWaiters, position, stopped)
    }

    constructor ()
      ensures View() == INITIAL && Basic(View()) && Exclusive(View())
    {
      pendingResponses, finishedHandlers := map[], [];
      writeLock, writeLockWaiters := false, [];
      position, stopped := AtHeader, false;
    }

    /** Lines 27-32. */
    method ReapFinished()
      modifies this
      ensures View() == old(Reap(View()))
    {
      var i := 0;
      while i < |finishedHandlers|
        invariant 0 <= i <= |finishedHandlers|
        invariant pendingResponses == old(pendingResponses) - Elements(finishedHandlers[..i])
        invariant unchanged(`finishedHandlers, `writeLock, `writeLockWaiters, `position, `stopped)
      {
        assert finishedHandlers[..i + 1] == finishedHandlers[..i] + [finishedHandlers[i]];
        pendingResponses := pendingResponses - {finishedHandlers[i]};
        i := i + 1;
      }
      assert finishedHandlers[..i] == finishedHandlers;
      finishedHandlers := [];
    }

    /** Lines 25-42: the header is read. A refused header stops the connection and says so. */
    method OnHeader(rh: RequestHeader) returns (accepted: bool)
      requires Basic(View()) && Enabled(View(), Header(rh))
      modifies this
      ensures View() == old(DoHeader(View(), rh)) && Basic(View())
      ensures accepted <==> !old(Refused(Reap(View()), rh))
      ensures accepted <==> !stopped
      ensures accepted <==> rh.requestLength <= 1_048_576 && (rh.command == 1 || rh.command == 2)
                            && (rh.tag in old(pendingResponses) ==> rh.tag in old(finishedHandlers))
    {
      HeaderBasic(View(), rh);
      ReapFinished();
      if rh.requestLength > MAX_REQUEST_LENGTH || rh.command >= COMMAND_COUNT || rh.command == 0
         || rh.tag in pendingResponses {
        stopped := true;
        return false;
      }
      pendingResponses := pendingResponses[rh.tag := Handler(rh.command, [], Receiving, 0)];
      position := AtBody(rh.tag, rh.requestLength);
      return true;
    }

    /** Lines 43-50: the body is read; create the handler and schedule it. */
    method OnBody(bytes: seq<byte>) returns (scheduled: nat)
      requires Basic(View()) && Enabled(View(), Body(bytes))
      modifies this
      ensures View() == old(DoBody(View(), bytes)) && Basic(View())
      ensures scheduled == old(position).tag && pendingResponses[scheduled].body == bytes
    {
      StepBasic(View(), Body(bytes));
      scheduled := position.tag;
      pendingResponses := pendingResponses[scheduled :=
        pendingResponses[scheduled].(body := bytes, phase := Ready)];
      position := AtHeader;
    }

    /** `handlePing` up to its write, with `acquireWriteLock` (lines 98-113): take the free lock and
        go on, or queue up and suspend. */
    method AcquireWriteLock(t: nat) returns (granted: bool)
      requires Basic(View()) && Enabled(View(), Start(t)) && pendingResponses[t].command == PING
      modifies this
      ensures View() == old(DoStart(View(), t)) && Basic(View())
      ensures granted <==> !old(writeLock)
      ensures writeLock && writeLockWaiters == old(writeLockWaiters) + (if granted then [] else [t])
      ensures old(Exclusive(View())) ==> Exclusive(View())
    {
      StartBasic(View(), t);
      if Exclusive(View()) { StepExclusive(View(), Start(t)); }
      if !writeLock {
        writeLock := true;
        pendingResponses := pendingResponses[t := pendingResponses[t].(phase := Granted)];
        return true;
      }
      writeLockWaiters := writeLockWaiters + [t];
      pendingResponses := pendingResponses[t := pendingResponses[t].(phase := Queued)];
      return false;
    }

    /** The rest of `handlePing`: an answer without a body, carrying the tag of the request. */
    method WritePong(t: nat) returns (response: seq<byte>)
      requires Basic(View()) && Enabled(View(), Write(t))
      modifies this
      ensures View() == old(DoWrite(View(), t)) && Basic(View())
      ensures |response| == RESPONSE_HEADER_SIZE
      ensures t < U16 ==> DecodeResponse(response) == ResponseHeader(0, t)
    {
      StepBasic(View(), Write(t));
      response := EncodeResponse(ResponseHeader(0, t));
      if t < U16 { ResponseRoundTrip(ResponseHeader(0, t)); }
      var h := pendingResponses[t];
      pendingResponses := pendingResponses[t := h.(phase := Written, writes := h.writes + 1)];
    }

    /** Lines 71-78: free the lock, or hand it to the waiter queued last. */
    method ReleaseWriteLock(t: nat) returns (next: seq<nat>)
      requires Basic(View()) && Enabled(View(), Finish(t))
      modifies this
      ensures View() == old(DoFinish(View(), t)) && Basic(View())
      ensures old(Exclusive(View())) ==> (Exclusive(View()) <==> old(SafeRelease(View(), Finish(t))))
      ensures old(writeLockWaiters) == writeLockWaiters + next && |next| <= 1
      ensures next == [] <==> old(writeLockWaiters) == []
    {
      FinishBasic(View(), t);
      if writeLockWaiters != [] { LastWaiter(View()); }
      if Exclusive(View()) { ExclusionExactly(View(), Finish(t)); }
      pendingResponses := pendingResponses[t := pendingResponses[t].(phase := Released)];
      next := [];
      if writeLockWaiters == [] {
        writeLock := false;
      } else {
        var n := |writeLockWaiters| - 1;
        var w := writeLockWaiters[n];
        next := [w];
        pendingResponses := pendingResponses[w := pendingResponses[w].(phase := Granted)];
        writeLockWaiters := writeLockWaiters[..n];
      }
    }

    /** Lines 80-87. */
    method RecordFinished(t: nat)
      requires Basic(View()) && Enabled(View(), Record(t))
      modifies this
      ensures View() == old(DoRecord(View(), t)) && Basic(View())
    {
      RecordBasic(View(), t);
      pendingResponses := pendingResponses[t := pendingResponses[t].(phase := Recorded)];
      finishedHandlers := finishedHandlers + [t];
    }
  }
}
