/** Bytes on the wire: little-endian integers and the two packed headers
    (src/proto/RequestHeader.h, src/proto/ResponseHeader.h). */
module Wire {
  type byte = b: int | 0 <= b < 256

  /** 256 to the power `n`: the number of values of an unsigned integer of `n` bytes. */
  function Range(n: nat): nat
    ensures Range(n) > 0
  {
    if n == 0 then 1 else 256 * Range(n - 1)
  }

  function EncodeUInt(v: nat, width: nat): (bs: seq<byte>)
    ensures |bs| == width
  {
    if width == 0 then [] else [v % 256] + EncodeUInt(v / 256, width - 1)
  }

  function DecodeUInt(bs: seq<byte>): nat {
    if bs == [] then 0 else bs[0] + 256 * DecodeUInt(bs[1..])
  }

  lemma {:induction false} UIntRoundTrip(v: nat, width: nat)
    requires v < Range(width)
    ensures DecodeUInt(EncodeUInt(v, width)) == v
  {
    if width != 0 {
      UIntRoundTrip(v / 256, width - 1);
      assert EncodeUInt(v, width)[1..] == EncodeUInt(v / 256, width - 1);
    }
  }

  lemma {:induction false} UIntBound(bs: seq<byte>)
    ensures DecodeUInt(bs) < Range(|bs|)
  {
    if bs != [] {
      UIntBound(bs[1..]);
    }
  }

  /** The bytes read are the only ones that give the value. */
  lemma {:induction false} UIntInverse(bs: seq<byte>)
    ensures EncodeUInt(DecodeUInt(bs), |bs|) == bs
  {
    if bs != [] {
      UIntInverse(bs[1..]);
      assert bs == [bs[0]] + bs[1..];
    }
  }

  lemma Ranges()
    ensures Range(1) == 0x100 && Range(2) == 0x1_0000 && Range(4) == 0x1_0000_0000
  {
    assert Range(3) == 256 * Range(2);
  }

  const U16: nat := 0x1_0000
  const U32: nat := 0x1_0000_0000

  /** `struct ResponseHeader`, packed into 6 bytes. */
  datatype ResponseHeader = ResponseHeader(responseLen: nat, tag: nat) {
    predicate Fits() { responseLen < U32 && tag < U16 }
  }

  const RESPONSE_HEADER_SIZE: nat := 6

  function EncodeResponse(h: ResponseHeader): (bs: seq<byte>)
    ensures |bs| == RESPONSE_HEADER_SIZE
  {
    EncodeUInt(h.responseLen, 4) + EncodeUInt(h.tag, 2)
  }

  function DecodeResponse(bs: seq<byte>): ResponseHeader
    requires |bs| == RESPONSE_HEADER_SIZE
  {
    ResponseHeader(DecodeUInt(bs[..4]), DecodeUInt(bs[4..]))
  }

  lemma ResponseRoundTrip(h: ResponseHeader)
    requires h.Fits()
    ensures DecodeResponse(EncodeResponse(h)) == h
  {
    Ranges();
    UIntRoundTrip(h.responseLen, 4);
    UIntRoundTrip(h.tag, 2);
    assert EncodeResponse(h)[..4] == EncodeUInt(h.responseLen, 4);
    assert EncodeResponse(h)[4..] == EncodeUInt(h.tag, 2);
  }

  /** `struct RequestHeader`, packed into 7 bytes. */
  datatype RequestHeader = RequestHeader(requestLength: nat, command: nat, tag: nat) {
    predicate Fits() { requestLength < U32 && command < 256 && tag < U16 }
  }

  const REQUEST_HEADER_SIZE: nat := 7

  function EncodeRequest(h: RequestHeader): (bs: seq<byte>)
    ensures |bs| == REQUEST_HEADER_SIZE
  {
    EncodeUInt(h.requestLength, 4) + EncodeUInt(h.command, 1) + EncodeUInt(h.tag, 2)
  }

  function DecodeRequest(bs: seq<byte>): RequestHeader
    requires |bs| == REQUEST_HEADER_SIZE
  {
    RequestHeader(DecodeUInt(bs[..4]), DecodeUInt(bs[4..5]), DecodeUInt(bs[5..]))
  }

  lemma RequestRoundTrip(h: RequestHeader)
    requires h.Fits()
    ensures DecodeRequest(EncodeRequest(h)) == h
  {
    Ranges();
    UIntRoundTrip(h.requestLength, 4);
    UIntRoundTrip(h.command, 1);
    UIntRoundTrip(h.tag, 2);
    var bs := EncodeRequest(h);
    assert bs[..4] == EncodeUInt(h.requestLength, 4);
    assert bs[4..5] == EncodeUInt(h.command, 1);
    assert bs[5..] == EncodeUInt(h.tag, 2);
  }

  /** Every 7 bytes are the header they are read as, byte 4 being the command. */
  lemma RequestInverse(bs: seq<byte>)
    requires |bs| == REQUEST_HEADER_SIZE
    ensures EncodeRequest(DecodeRequest(bs)) == bs && DecodeRequest(bs).Fits()
    ensures DecodeRequest(bs).command == bs[4]
  {
    Ranges();
    UIntInverse(bs[..4]);
    UIntBound(bs[..4]);
    UIntInverse(bs[4..5]);
    UIntBound(bs[4..5]);
    UIntInverse(bs[5..]);
    UIntBound(bs[5..]);
    assert bs == bs[..4] + bs[4..5] + bs[5..];
    assert bs[4..5][0] == bs[4] && bs[4..5][1..] == [];
  }

  /** A read of `n` bytes takes exactly the first `n` when what precedes the rest has length `n`. */
  lemma TakeHead<T>(a: seq<T>, b: seq<T>)
    ensures (a + b)[..|a|] == a && (a + b)[|a|..] == b
  {
  }

  /** `struct RequestHeader` byte by byte: four of length, one of command, two of tag. */
  lemma RequestLayout(h: RequestHeader)
    requires h.Fits()
    ensures EncodeRequest(h) ==
      [h.requestLength % 256, h.requestLength / 0x100 % 256, h.requestLength / 0x1_0000 % 256,
       h.requestLength / 0x100_0000, h.command, h.tag % 256, h.tag / 256]
  {
    FourBytes(h.requestLength);
    TwoBytes(h.tag);
    OneByte(h.command);
  }

  /** `struct ResponseHeader` byte by byte: four of length, two of tag. */
  lemma ResponseLayout(h: ResponseHeader)
    requires h.Fits()
    ensures EncodeResponse(h) ==
      [h.responseLen % 256, h.responseLen / 0x100 % 256, h.responseLen / 0x1_0000 % 256,
       h.responseLen / 0x100_0000, h.tag % 256, h.tag / 256]
  {
    FourBytes(h.responseLen);
    TwoBytes(h.tag);
  }

  /** Integers are little-endian. */
  lemma FourBytes(v: nat)
    requires v < U32
    ensures EncodeUInt(v, 4) == [v % 256, v / 0x100 % 256, v / 0x1_0000 % 256, v / 0x100_0000]
  {
    TwoBytes(v / 0x1_0000);
    assert EncodeUInt(v, 4) == [v % 256] + EncodeUInt(v / 256, 3);
    assert EncodeUInt(v / 256, 3) == [v / 256 % 256] + EncodeUInt(v / 256 / 256, 2);
    assert v / 256 / 256 == v / 0x1_0000;
  }

  lemma TwoBytes(v: nat)
    requires v < U16
    ensures EncodeUInt(v, 2) == [v % 256, v / 256]
  {
    assert EncodeUInt(v, 2) == [v % 256] + EncodeUInt(v / 256, 1);
    OneByte(v / 256);
  }

  lemma OneByte(v: nat)
    requires v < 256
    ensures EncodeUInt(v, 1) == [v]
  {
    assert EncodeUInt(v, 1) == [v % 256] + EncodeUInt(v / 256, 0);
  }
}
