/** src/proto/ClientTransport.cpp in its own form: a class whose methods update the request table,
    the reader and the unread length in place. Each method is one atomic stretch of the source and
    is proved to be the corresponding step of `Client`. */
module ClientTransports {
  import opened Util
  import opened Wire
  import opened Framing
  import opened Client

  /** With every key below the bound, the table is full exactly when no tag below it is free. */
  lemma FullTable(pending: map<nat, Request>)
    requires forall t | t in pending :: t < MAX_TAGS
    ensures |pending| <= MAX_TAGS
    ensures |pending| == MAX_TAGS <==> forall i: nat | i < MAX_TAGS :: i in pending
  {
    assert pending.Keys <= Below(MAX_TAGS);
    SubsetSize(pending.Keys, Below(MAX_TAGS));
    if forall i: nat | i < MAX_TAGS :: i in pending {
      assert pending.Keys == Below(MAX_TAGS);
    }
  }

  /** The scan of lines 125-131. */
  method ScanTags(pending: map<nat, Request>) returns (tag: Option<nat>)
    requires forall t | t in pending :: t < MAX_TAGS
    ensures tag.Some? <==> |pending| < 65535
    ensures tag.Some? ==> tag.value < 65535 && LeastFree(pending, tag.value)
  {
    FullTable(pending);
    var i := 0;
    while i < MAX_TAGS
      invariant 0 <= i <= MAX_TAGS
      invariant forall j: nat | j < i :: j in pending
    {
      if i !in pending {
        return Some(i);
      }
      i := i + 1;
    }
    return None;
  }

  /** The caller that has read nothing yet, or has nothing to read. */
  lemma Small(s: State, c: nat)
    requires Data(s) && c in s.calls && s.calls[c].header.Some? && s.calls[c].got == []
    requires s.calls[c].phase == Finished || s.calls[c].phase == Draining
    ensures s.calls[c].answer.Some? && s.calls[c].header.value == HeaderOf(s.calls[c])
    ensures s.calls[c].phase == Finished ==> s.calls[c].answer.value == []
    ensures s.calls[c].phase == Draining ==> s.unreadLength == |s.calls[c].answer.value| > 0
  {
    assert CallData(s, c);
  }

  /** A caller with its whole body before it can ask for it and read it without a pause. */
  lemma AtOnce(s: State, c: nat, n: nat)
    requires Inv(s) && InPhase(s, c, Draining) && s.calls[c].got == []
    requires s.calls[c].answer.Some? && n == s.unreadLength == |s.calls[c].answer.value| && 0 < n <= |s.input|
    ensures Enabled(s, ReadBody(c, n))
    ensures var s1 := Apply(s, ReadBody(c, n));
            && Inv(s1) && Enabled(s1, BodyArrives(c)) && s1.calls[c] == s.calls[c].(phase := Reading(n))
    ensures var s2 := Apply(Apply(s, ReadBody(c, n)), BodyArrives(c));
            && Inv(s2) && InPhase(s2, c, Releasing) && s2.lock == s.lock
            && s2.pending == s.pending && s2.calls[c].tag == s.calls[c].tag
  {
    StepKeeps(s, ReadBody(c, n));
    StepKeeps(Apply(s, ReadBody(c, n)), BodyArrives(c));
  }

  lemma WholeSlice(b: seq<byte>, n: nat)
    requires n == |b|
    ensures b[0..n] == b
  {
  }

  lemma AfterRelease(s: State, c: nat)
    requires Inv(s) && InPhase(s, c, Releasing) && s.lock.None?
    ensures Enabled(s, Release(c)) && Inv(Apply(s, Release(c))) && InPhase(Apply(s, Release(c)), c, Finished)
  {
    StepKeeps(s, Release(c));
  }

  class ClientTransport {
    var pendingRequests: map<nat, Request>
    var lock: Option<nat>                   // the caller that holds `lock` across statements
    var unreadResponseLength: nat
    var unreadResponseTag: nat
    var currentWaitForResponse: Reader
    var input: seq<byte>                    // the transport, as two byte streams
    var output: seq<byte>
    var failed: bool                        // UnknownResponseException left the reader
    ghost var calls: map<nat, Call>         // the caller coroutines
    ghost var queue: seq<Answered>          // history of the peer's answers

    ghost function View(): State
      reads this
    {
      State(pendingRequests, lock, currentWaitForResponse, unreadResponseLength, unreadResponseTag,
            input, output, failed, calls, queue)
    }

    constructor ()
      ensures View() == INITIAL
    {
      pendingRequests, lock, currentWaitForResponse := map[], None, NoReader;
      unreadResponseLength, unreadResponseTag := 0, 0;
      input, output, failed := [], [], false;
      calls, queue := map[], [];
    }

    /** Lines 123-132: one pass of the loop under the lock. A full table releases the lock and
        changes nothing; the caller spins. */
    method ReserveRequestState(c: nat, command: nat, request: seq<byte>) returns (tag: Option<nat>)
      requires TagTable(View()) && lock.None? && !failed && c !in calls && |request| < U32
      modifies this
      ensures tag.Some? <==> |old(pendingRequests)| < MAX_TAGS
      ensures tag.None? ==> View() == old(View())
      ensures tag.Some? ==>
                && old(Enabled(View(), Reserve(c, tag.value, command, request)))
                && View() == old(DoReserve(View(), c, tag.value, command, request))
    {
      tag := ScanTags(pendingRequests);
      if tag.Some? {
        lock := Some(c);
        pendingRequests := pendingRequests[tag.value := Request(c, None)];
        calls := calls[c := Call(tag.value, command, request, Reserved, None, [], None)];
      }
    }

    /** Lines 27-46: fill in the header in front of the body, write the frame, start the reader if
        nobody else is pending, release the lock and stay suspended. */
    method WriteAndSuspend(c: nat, tag: nat, command: nat, buffer: seq<byte>)
      requires Control(View()) && Enabled(View(), Send(c)) && calls[c].tag == tag
      requires REQUEST_HEADER_SIZE <= |buffer| < U32
      requires calls[c].command == command && calls[c].request == buffer[REQUEST_HEADER_SIZE..]
      modifies this
      ensures View() == old(DoSend(View(), c))
    {
      if |pendingRequests| == 1 { LoneSender(View(), c); }
      var frame := FillHeader(buffer, command, tag);
      output := output + frame;
      if |pendingRequests| == 1 {
        assert currentWaitForResponse == NoReader;   // the assertion of lines 38-41
        currentWaitForResponse := Armed;
      }
      lock := None;
      calls := calls[c := calls[c].(phase := Waiting)];
    }

    /** Lines 102-118: the header is in; find its requester and schedule it. A tag nobody waits
        for leaves the reader with UnknownResponseException. */
    method OnHeader() returns (scheduled: Option<nat>)
      requires TagTable(View()) && Enabled(View(), HeaderArrives)
      modifies this
      ensures View() == old(DoHeader(View()))
      ensures var tag := old(DecodeResponse(input[..RESPONSE_HEADER_SIZE])).tag;
              if tag in old(pendingRequests)
              then scheduled == Some(old(pendingRequests)[tag].call) && !failed
              else scheduled == None && failed
    {
      var rh := DecodeResponse(input[..RESPONSE_HEADER_SIZE]);
      input := input[RESPONSE_HEADER_SIZE..];
      if rh.tag !in pendingRequests {
        failed := true;
        return None;
      }
      var c := pendingRequests[rh.tag].call;
      pendingRequests := pendingRequests[rh.tag := Request(c, Some(rh))];
      unreadResponseLength := rh.responseLen;
      unreadResponseTag := rh.tag;
      currentWaitForResponse := Parked;
      calls := calls[c := calls[c].(phase := Scheduled)];
      queue := if queue == [] then [] else queue[1..];
      return Some(c);
    }

    /** Lines 47-61: the requester is back with its header. */
    method ResumeRequester(c: nat, tag: nat) returns (rh: ResponseHeader)
      requires Data(View()) && Enabled(View(), Resume(c)) && calls[c].tag == tag
      modifies this
      ensures View() == old(DoResume(View(), c))
      ensures rh == old(HeaderOf(calls[c]))
    {
      assert CallData(View(), c);
      var header := pendingRequests[tag].header;   // taken before the entry is erased
      rh := header.value;
      currentWaitForResponse := NoReader;          // resumed to its end and moved out
      calls := calls[c := calls[c].(header := header,
                                    phase := if rh.responseLen == 0 then Finished else Draining)];
      if rh.responseLen == 0 {
        pendingRequests := pendingRequests - {tag};
        currentWaitForResponse := if pendingRequests != map[] then Armed else NoReader;
      }
    }

    /** Lines 77-83: within what is left of the body, a read of exactly `size` bytes is handed to the
        transport. Otherwise an assertion stops the program and nothing is read. */
    method AskBody(c: nat, size: nat) returns (ok: bool)
      requires !failed && InPhase(View(), c, Draining)
      modifies this
      ensures ok <==> size <= unreadResponseLength && unreadResponseLength > 0
      ensures ok ==> old(Enabled(View(), ReadBody(c, size))) && View() == old(Apply(View(), ReadBody(c, size)))
      ensures ok ==> c in calls && calls[c] == old(calls[c]).(phase := Reading(size))
      ensures !ok ==> View() == old(View())
    {
      ok := size <= unreadResponseLength && unreadResponseLength > 0;
      if ok {
        calls := calls[c := calls[c].(phase := Reading(size))];
      }
    }

    /** Lines 77-84 for a whole body that has arrived: one read takes it all. */
    method TakeWholeBody(c: nat, size: nat) returns (data: seq<byte>)
      requires Inv(View()) && InPhase(View(), c, Draining) && calls[c].got == []
      requires calls[c].answer.Some? && size == unreadResponseLength == |calls[c].answer.value|
      requires 0 < size <= |input|
      modifies this
      ensures data == old(calls[c].answer.value)
      ensures Inv(View()) && InPhase(View(), c, Releasing) && lock == old(lock)
      ensures pendingRequests == old(pendingRequests) && calls[c].tag == old(calls[c]).tag
    {
      AtOnce(View(), c, size);
      WholeSlice(calls[c].answer.value, size);
      var ok := AskBody(c, size);
      data := OnBody(c, size);
    }

    /** Lines 77-97: and the tag is released, so that the caller is done. */
    method ReadWholeBody(c: nat, size: nat) returns (data: seq<byte>)
      requires Inv(View()) && InPhase(View(), c, Draining) && lock.None? && calls[c].got == []
      requires calls[c].answer.Some? && size == unreadResponseLength == |calls[c].answer.value|
      requires 0 < size <= |input|
      modifies this
      ensures data == old(calls[c].answer.value)
      ensures Inv(View()) && InPhase(View(), c, Finished)
      ensures pendingRequests == old(pendingRequests) - {old(calls[c]).tag}
    {
      data := TakeWholeBody(c, size);
      AfterRelease(View(), c);
      ReleaseTag(c);
    }

    /** Lines 70-74: `sendSmallRequest` with its header back. */
    method ReadSmallResponse(c: nat, rh: ResponseHeader) returns (data: seq<byte>)
      requires Inv(View()) && lock.None? && c in calls && calls[c].header == Some(rh) && calls[c].got == []
      requires calls[c].phase == if rh.responseLen == 0 then Finished else Draining
      requires rh.responseLen <= |input|
      modifies this
      ensures old(calls[c].answer.Some?) && data == old(calls[c].answer.value)
      ensures Inv(View()) && InPhase(View(), c, Finished)
      ensures if rh.responseLen == 0 then View() == old(View())
              else pendingRequests == old(pendingRequests) - {old(calls[c]).tag}
    {
      Small(View(), c);
      data := [];
      if rh.responseLen != 0 {
        data := ReadWholeBody(c, rh.responseLen);
      }
    }

    /** Lines 83-84: the transport has returned `size` bytes of the body. */
    method OnBody(c: nat, size: nat) returns (data: seq<byte>)
      requires Inv(View()) && Enabled(View(), BodyArrives(c)) && calls[c].phase.want == size
      modifies this
      ensures View() == old(DoBody(View(), c))
      ensures old(calls[c].answer.Some?) && |data| == size
      ensures old(|calls[c].got|) + size <= old(|calls[c].answer.value|)
      ensures data == old(calls[c].answer.value)[old(|calls[c].got|)..old(|calls[c].got|) + size]
    {
      NextBody(View(), c);
      data := input[..size];
      assert data == calls[c].answer.value[|calls[c].got|..|calls[c].got| + size];
      input := input[size..];
      calls := calls[c := calls[c].(
        got := calls[c].got + data,
        phase := if unreadResponseLength == size then Releasing else Draining)];
      unreadResponseLength := unreadResponseLength - size;
    }

    /** Lines 86-96: the body is fully read; erase the tag and start the next reader. The reader
        was moved out when the header was taken, so resuming it again finds nothing. */
    method ReleaseTag(c: nat)
      requires Control(View()) && Enabled(View(), Release(c))
      modifies this
      ensures View() == old(DoRelease(View(), c))
      ensures pendingRequests == old(pendingRequests) - {old(calls[c]).tag}
      ensures c in calls && calls[c] == old(calls[c]).(phase := Finished)
    {
      OneActive(View(), c);
      assert currentWaitForResponse == NoReader;
      pendingRequests := pendingRequests - {unreadResponseTag};
      if pendingRequests != map[] {
        currentWaitForResponse := Armed;
      } else {
        currentWaitForResponse := NoReader;
      }
      calls := calls[c := calls[c].(phase := Finished)];
    }
  }
}
