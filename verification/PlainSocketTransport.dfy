/** The read side of src/transport/PlainSocketTransport.cpp in its own form: a class that fills the
    caller's array in place and shares one handle field among the event handlers. */
module PlainSockets {
  import opened Util
  import opened Wire
  import opened Socket

  class PlainSocketTransport {
    var readBufferData: array<byte>
    var readBufferSize: nat
    var readBufferOffset: nat
    var readPromiseHandle: Option<nat>
    var readFlag: bool
    var reading: bool                 // the tcp handle's own state
    var closing: bool
    ghost var begun: Option<nat>
    ghost var eof: bool
    ghost var started: nat
    ghost var received: seq<byte>
    ghost var completed: seq<Done>
    ghost var scheduled: seq<nat>

    /** The buffer of an outstanding read is the caller's array. */
    ghost predicate Valid()
      reads this, readBufferData
    {
      && readBufferOffset <= readBufferSize
      && (readFlag ==> readBufferData.Length == readBufferSize)
      && (!readFlag ==> readBufferSize == 0)
      && Inv(View())
    }

    ghost function View(): State
      reads this, readBufferData
    {
      State(readBufferSize, readBufferOffset,
            if readFlag && readBufferOffset <= readBufferData.Length
            then readBufferData[..readBufferOffset] else [],
            begun, readPromiseHandle, readFlag, reading, closing, eof,
            started, received, completed, scheduled)
    }

    constructor ()
      ensures Valid() && View() == INITIAL && fresh(readBufferData)
    {
      readBufferData := new byte[0];
      readBufferSize, readBufferOffset, readPromiseHandle := 0, 0, None;
      readFlag, reading, closing, begun, eof := false, false, false, None, false;
      started, received, completed, scheduled := 0, [], [], [];
    }

    /** Lines 84-95. A read of no bytes is over at once. */
    method RawRead(data: array<byte>)
      requires Valid() && !readFlag
      modifies this
      ensures Valid() && View() == old(DoRead(View(), data.Length))
      ensures data.Length > 0 ==> readBufferData == data
    {
      ghost var next := DoRead(View(), data.Length);
      StepKeeps(View(), Read(data.Length));
      started := started + 1;
      if data.Length == 0 {
        completed := completed + [Done(0, Full([]))];
        assert View() == next;
        return;
      }
      readFlag := true;
      readBufferData := data;
      readBufferOffset := 0;
      readBufferSize := data.Length;
      begun := Some(started - 1);
      assert readBufferData[..0] == [] && View() == next;
    }

    /** Lines 97-119. On a closing handle the exception is raised on a promise that nobody has joined
        yet, so line 104 is left by it: it goes through the read to whoever created it, and the read
        never suspends. */
    method SuspendRead(h: nat) returns (thrown: bool)
      requires Valid() && begun == Some(h)
      modifies this
      ensures Valid() && View() == old(DoSuspend(View()))
      ensures thrown <==> old(closing)
      ensures thrown ==> completed == old(completed) + [Done(old(readBufferSize), Closed)]
      ensures thrown ==> scheduled == old(scheduled) && !readFlag
      ensures !thrown ==> readPromiseHandle == Some(h) && reading
    {
      StepKeeps(View(), Suspend);
      begun := None;
      if closing {
        RaiseClosedTransportException();
        return true;
      }
      readPromiseHandle := Some(h);
      reading := true;
      return false;
    }

    /** Lines 123-135. */
    method RaiseClosedTransportException()
      requires readFlag      // the assertion of line 131
      modifies this
      ensures View() == old(RaiseClosed(View()))
    {
      completed := completed + [Done(readBufferSize, Closed)];
      readBufferOffset := 0;
      readBufferSize := 0;
      readPromiseHandle := None;
      readFlag := false;
    }

    /** Lines 189-219. The kernel has put `chunk` where the allocation callback pointed. */
    method OnData(chunk: seq<byte>) returns (resumed: Option<nat>)
      requires Valid() && Enabled(View(), Data(chunk))
      modifies this, readBufferData
      ensures Valid() && View() == old(DoData(View(), chunk))
      ensures readBufferData == old(readBufferData)
      ensures resumed == if old(readBufferOffset) + |chunk| == old(readBufferSize)
                         then old(readPromiseHandle) else None
      ensures resumed.Some? ==> completed == old(completed) + [Done(readBufferData.Length, Full(readBufferData[..]))]
      ensures readBufferData[..old(readBufferOffset)] == old(readBufferData[..readBufferOffset])
    {
      StepKeeps(View(), Data(chunk));
      assert readPromiseHandle.Some? && readFlag;   // the assertions of lines 196, 205 and 213
      ghost var before := readBufferData[..readBufferOffset];
      forall i | 0 <= i < |chunk| {
        readBufferData[readBufferOffset + i] := chunk[i];
      }
      readBufferOffset := readBufferOffset + |chunk|;
      assert readBufferData[..readBufferOffset] == before + chunk;
      received := received + chunk;
      resumed := None;
      if readBufferOffset == readBufferSize {
        assert readBufferData[..] == before + chunk;
        completed := completed + [Done(readBufferSize, Full(readBufferData[..]))];
        readBufferOffset := 0;
        readBufferSize := 0;
        resumed := readPromiseHandle;
        readPromiseHandle := None;
        reading := false;
        readFlag := false;
        scheduled := scheduled + [resumed.value];
      }
    }

    /** Lines 163-173. */
    method OnEnd() returns (resumed: Option<nat>)
      requires Valid()
      modifies this
      ensures Valid() && View() == old(Apply(View(), EndOfStream))
      ensures resumed == old(readPromiseHandle) && readPromiseHandle == None && !reading
    {
      StepKeeps(View(), EndOfStream);
      resumed := readPromiseHandle;
      if resumed.Some? {
        RaiseClosedTransportException();
        scheduled := scheduled + [resumed.value];
      }
      reading, eof := false, true;
    }

    /** Lines 222-229, reached from close and error events. */
    method OnCloseOrError() returns (resumed: Option<nat>)
      requires Valid()
      modifies this
      ensures Valid() && View() == old(OnClose(View()))
      ensures resumed == old(readPromiseHandle)
      ensures closing && !reading && EveryReadFails(View())
    {
      StepKeeps(View(), CloseEvent);
      ClosedForGood(View(), CloseEvent);
      resumed := readPromiseHandle;
      if resumed.Some? {
        RaiseClosedTransportException();
        scheduled := scheduled + [resumed.value];
      }
      closing, reading := true, false;
    }

    /** Lines 148-151: the handle starts closing; the suspended read waits for the close event. */
    method Close()
      requires Valid()
      modifies this
      ensures Valid() && View() == old(Apply(View(), CloseCalled))
      ensures closing && !reading && EveryReadFails(View())
      ensures readPromiseHandle == old(readPromiseHandle) && readFlag == old(readFlag)
    {
      StepKeeps(View(), CloseCalled);
      ClosedForGood(View(), CloseCalled);
      closing, reading := true, false;
    }
  }
}
