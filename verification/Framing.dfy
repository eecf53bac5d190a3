/** Request frames: what `sendRequest` writes (src/proto/ClientTransport.cpp:24-33) and how `listen`
    takes the stream apart (src/proto/ServerHandler.cpp:24-46). */
module Framing {
  import opened Wire

  datatype Frame = Frame(command: nat, tag: nat, body: seq<byte>) {
    predicate Fits() { |body| < U32 && command < 256 && tag < U16 }

    function Header(): RequestHeader { RequestHeader(|body|, command, tag) }
  }

  function EncodeFrame(f: Frame): (bs: seq<byte>)
    ensures |bs| == REQUEST_HEADER_SIZE + |f.body|
  {
    EncodeRequest(f.Header()) + f.body
  }

  /** The frame as `sendRequest` makes it: the header is filled in at the front of a buffer that
      already holds the body behind 7 bytes of room, and its length field is the buffer's length
      less 7. */
  method FillHeader(buffer: seq<byte>, command: nat, tag: nat) returns (frame: seq<byte>)
    requires REQUEST_HEADER_SIZE <= |buffer| < U32
    ensures frame == EncodeFrame(Frame(command, tag, buffer[REQUEST_HEADER_SIZE..]))
    ensures |frame| == |buffer|
  {
    var header := RequestHeader(|buffer| - REQUEST_HEADER_SIZE, command, tag);
    frame := EncodeRequest(header) + buffer[REQUEST_HEADER_SIZE..];
  }

  function Concat(frames: seq<Frame>): seq<byte> {
    if frames == [] then [] else EncodeFrame(frames[0]) + Concat(frames[1..])
  }

  lemma {:induction false} ConcatAppend(frames: seq<Frame>, f: Frame)
    ensures Concat(frames + [f]) == Concat(frames) + EncodeFrame(f)
  {
    if frames == [] {
      assert frames + [f] == [f];
      assert Concat([]) == [];
    } else {
      assert (frames + [f])[1..] == frames[1..] + [f];
      ConcatAppend(frames[1..], f);
    }
  }

  /** The two reads of one turn of `listen` can complete: 7 bytes, then as many as they announce. */
  predicate Complete(stream: seq<byte>) {
    && |stream| >= REQUEST_HEADER_SIZE
    && |stream| >= REQUEST_HEADER_SIZE + DecodeRequest(stream[..REQUEST_HEADER_SIZE]).requestLength
  }

  function First(stream: seq<byte>): Frame
    requires Complete(stream)
  {
    var h := DecodeRequest(stream[..REQUEST_HEADER_SIZE]);
    Frame(h.command, h.tag, stream[REQUEST_HEADER_SIZE..REQUEST_HEADER_SIZE + h.requestLength])
  }

  lemma FirstOfConcat(f: Frame, rest: seq<byte>)
    requires f.Fits()
    ensures Complete(EncodeFrame(f) + rest) && First(EncodeFrame(f) + rest) == f
    ensures (EncodeFrame(f) + rest)[..REQUEST_HEADER_SIZE] == EncodeRequest(f.Header())
    ensures DecodeRequest(EncodeRequest(f.Header())) == f.Header()
    ensures (EncodeFrame(f) + rest)[REQUEST_HEADER_SIZE..] == f.body + rest
    ensures (EncodeFrame(f) + rest)[REQUEST_HEADER_SIZE + |f.body|..] == rest
  {
    var s := EncodeFrame(f) + rest;
    assert s == EncodeRequest(f.Header()) + (f.body + rest);
    TakeHead(EncodeRequest(f.Header()), f.body + rest);
    RequestRoundTrip(f.Header());
    assert s[REQUEST_HEADER_SIZE..REQUEST_HEADER_SIZE + |f.body|] == f.body;
  }

  datatype Parsed = Parsed(frames: seq<Frame>, rest: seq<byte>)

  /** Everything `listen` can take from a stream. */
  function Parse(stream: seq<byte>): Parsed
    decreases |stream|
  {
    if !Complete(stream) then Parsed([], stream) else
    var p := Parse(stream[REQUEST_HEADER_SIZE + |First(stream).body|..]);
    Parsed([First(stream)] + p.frames, p.rest)
  }

  /** Round trip: reading the concatenation of any frames gives back the same commands, tags and
      bodies in the same order, whatever incomplete piece of a frame follows. */
  lemma {:induction false} ParseConcat(frames: seq<Frame>, tail: seq<byte>)
    requires forall i | 0 <= i < |frames| :: frames[i].Fits()
    requires !Complete(tail)
    ensures Parse(Concat(frames) + tail) == Parsed(frames, tail)
    decreases |frames|
  {
    if frames == [] {
      assert Concat(frames) + tail == tail;
    } else {
      ParseConcat(frames[1..], tail);
      assert Concat(frames) + tail == EncodeFrame(frames[0]) + (Concat(frames[1..]) + tail);
      FirstOfConcat(frames[0], Concat(frames[1..]) + tail);
      assert [frames[0]] + frames[1..] == frames;
    }
  }

  /** The loop of `listen` as far as framing goes: it ends when a read can no longer complete. */
  method Listen(stream: seq<byte>) returns (frames: seq<Frame>, rest: seq<byte>)
    ensures Parse(stream) == Parsed(frames, rest) && !Complete(rest)
  {
    frames, rest := [], stream;
    while Complete(rest)
      invariant Parse(stream).frames == frames + Parse(rest).frames
      invariant Parse(stream).rest == Parse(rest).rest
      decreases |rest|
    {
      var header := DecodeRequest(rest[..REQUEST_HEADER_SIZE]);
      var afterHeader := rest[REQUEST_HEADER_SIZE..];
      var f := Frame(header.command, header.tag, afterHeader[..header.requestLength]);
      var next := afterHeader[header.requestLength..];
      assert f == First(rest) && next == rest[REQUEST_HEADER_SIZE + |f.body|..];
      assert frames + ([f] + Parse(next).frames) == frames + [f] + Parse(next).frames;
      frames, rest := frames + [f], next;
    }
  }
}
