/** The sizes that src/transport/Buffer.h computes in advance, in 32-bit arithmetic, and what they are
    worth: when a buffer of the computed size takes the values it was made for. */
module Sizes {
  import opened Util
  import opened Wire
  import opened Codec
  import opened Buffers

  /** `calcSize` of integers, Ids and strings, in 32-bit arithmetic. */
  function CalcSize(vs: seq<Value>): nat {
    if vs == [] then 0 else
    ((match vs[0]
      case One(s) => |EncodeScalar(s)|
      case Str(bytes) => (4 + |bytes|) % U32
      case _ => 0) + CalcSize(vs[1..])) % U32
  }

  predicate Sized(vs: seq<Value>) {
    forall i | 0 <= i < |vs| :: vs[i].One? || vs[i].Str?
  }

  lemma ModIs(x: nat, q: nat, r: nat)
    requires x == U32 * q + r && r < U32
    ensures x % U32 == r
  {
  }

  lemma ModAdd(a: nat, b: nat)
    ensures (a + b % U32) % U32 == (a + b) % U32
  {
    var s := a + b % U32;
    ModIs(a + b, b / U32 + s / U32, s % U32);
  }

  lemma {:induction false} CalcSizeWraps(vs: seq<Value>)
    requires Sized(vs)
    ensures CalcSize(vs) == |EncodeAll(vs)| % U32
  {
    if vs != [] {
      CalcSizeWraps(vs[1..]);
      var a, b := |Encode(vs[0])|, |EncodeAll(vs[1..])|;
      ModAdd(a, b);
      ModAdd(b % U32, a);
    }
  }

  // ------------------------------------------------------------------ guards in 32 bits

  /** The two counters of a buffer. Nothing keeps the offset within the length. */
  datatype Cursor = Cursor(len: nat, offset: nat) {
    predicate Fits() { len < U32 && offset < U32 }
  }

  /** `len - offset`, as every writer computes it. */
  function Room(c: Cursor): nat {
    (c.len - c.offset) % U32
  }

  function Forward(c: Cursor, n: nat): Cursor {
    c.(offset := (c.offset + n) % U32)
  }

  /** The guards of a series of writes and where they leave the counters; `None` is a throw. A string
      is guarded by its count and text together. */
  ghost function Pass(c: Cursor, vs: seq<Value>): (r: Option<Cursor>)
    decreases |vs|
  {
    if vs == [] then Some(c) else
    if Room(c) < |Encode(vs[0])| then None else Pass(Forward(c, |Encode(vs[0])|), vs[1..])
  }

  /** Every write that passes its guard stays within the array. */
  ghost predicate InBounds(c: Cursor, vs: seq<Value>)
    decreases |vs|
  {
    vs == [] ||
    var n := |Encode(vs[0])|;
    n <= Room(c) ==> (n == 0 || c.offset + n <= c.len) && InBounds(Forward(c, n), vs[1..])
  }

  lemma RoomIs(c: Cursor)
    requires c.Fits()
    ensures Room(c) == if c.offset <= c.len then c.len - c.offset else c.len + U32 - c.offset
  {
  }

  lemma ForwardRoom(c: Cursor, n: nat)
    requires c.Fits() && n <= Room(c)
    ensures Forward(c, n).Fits() && Room(Forward(c, n)) == Room(c) - n
    ensures c.offset <= c.len ==> Forward(c, n).offset == c.offset + n <= c.len
  {
    RoomIs(c);
    RoomIs(Forward(c, n));
  }

  lemma ForwardTwice(c: Cursor, a: nat, b: nat)
    ensures Forward(Forward(c, a), b) == Forward(c, a + b)
  {
    ModAdd(b, c.offset + a);
  }

  /** The guards pass exactly when the room suffices, wherever the offset is. */
  lemma {:induction false} PassExactly(c: Cursor, vs: seq<Value>)
    requires c.Fits()
    ensures Pass(c, vs).Some? <==> |EncodeAll(vs)| <= Room(c)
    ensures Pass(c, vs).Some? ==> Pass(c, vs).value == Forward(c, |EncodeAll(vs)|)
    decreases |vs|
  {
    if vs != [] && |Encode(vs[0])| <= Room(c) {
      var n := |Encode(vs[0])|;
      ForwardRoom(c, n);
      PassExactly(Forward(c, n), vs[1..]);
      ForwardTwice(c, n, |EncodeAll(vs[1..])|);
    }
  }

  /** An offset within the length stays there; beyond it, the first byte written is outside. */
  lemma {:induction false} InBoundsExactly(c: Cursor, vs: seq<Value>)
    requires c.Fits() && |EncodeAll(vs)| <= Room(c)
    ensures InBounds(c, vs) <==> c.offset <= c.len || EncodeAll(vs) == []
    decreases |vs|
  {
    if vs != [] {
      var n := |Encode(vs[0])|;
      RoomIs(c);
      ForwardRoom(c, n);
      InBoundsExactly(Forward(c, n), vs[1..]);
      if n == 0 { assert Forward(c, n) == c; }
    }
  }

  /** What follows once the room is the total modulo 2^32. */
  lemma FromRoom(c: Cursor, vs: seq<Value>)
    requires c.Fits() && Room(c) == |EncodeAll(vs)| % U32
    ensures Pass(c, vs).Some? <==> |EncodeAll(vs)| < U32
    ensures Pass(c, vs).Some? ==> Pass(c, vs).value == Forward(c, |EncodeAll(vs)|)
    ensures Pass(c, vs).Some? ==> (InBounds(c, vs) <==> c.offset <= c.len || EncodeAll(vs) == [])
  {
    PassExactly(c, vs);
    if |EncodeAll(vs)| < U32 {
      ModIs(|EncodeAll(vs)|, 0, |EncodeAll(vs)|);
      InBoundsExactly(c, vs);
    }
  }

  /** A buffer of `calcSize` bytes behind a header, counters and guards in 32 bits. Every guard passes
      and the final check too, exactly when the values take less than 2^32 bytes. They are written
      within the array exactly when header and values together do. In between, all checks pass while
      bytes go outside. */
  lemma SizeExactly(vs: seq<Value>, header: nat)
    requires Sized(vs) && header < U32
    ensures var c, total := Cursor((CalcSize(vs) + header) % U32, header), |EncodeAll(vs)|;
            && (Pass(c, vs).Some? <==> total < U32)
            && (Pass(c, vs).Some? ==> Pass(c, vs).value.offset == c.len)
            && (Pass(c, vs).Some? && InBounds(c, vs) <==> header + total < U32)
  {
    CalcSizeWraps(vs);
    SizedRoom(|EncodeAll(vs)|, header);
    FromRoom(Cursor((CalcSize(vs) + header) % U32, header), vs);
  }

  lemma SizedRoom(total: nat, header: nat)
    requires header < U32
    ensures var c := Cursor((total % U32 + header) % U32, header);
            && Room(c) == total % U32
            && (total < U32 ==> Forward(c, total).offset == c.len)
            && (total < U32 ==> (header <= c.len <==> header + total < U32))
  {
    RoomIs(Cursor((total % U32 + header) % U32, header));
    var size := total % U32;
    if size + header < U32 {
      ModIs(size + header, 0, size + header);
    } else {
      ModIs(size + header, 1, size + header - U32);
    }
    if total < U32 { ModIs(total, 0, total); }
  }

  lemma FitsExactly(vs: seq<Value>, header: nat)
    requires Sized(vs) && header < U32
    ensures var len, total := (CalcSize(vs) + header) % U32, |EncodeAll(vs)|;
            && (header + total < U32 <==> header + total <= len)
            && (header + total <= len ==> header + total == len)
  {
    CalcSizeWraps(vs);
    SizedRoom(|EncodeAll(vs)|, header);
    if header + |EncodeAll(vs)| < U32 { ModIs(|EncodeAll(vs)|, 0, |EncodeAll(vs)|); }
  }

  lemma PutTail(bs: seq<byte>, d: seq<byte>, at: nat)
    requires at + |bs| == |d| && exists was: seq<byte> :: |was| == |d| && d == Put(was, at, bs)
    ensures d[at..] == bs
  {
  }

  /** Size exactness: a buffer of `calcSize` bytes behind any header is filled by writing the values,
      within its array, with no throw and no byte over, if and only if header and values together fit
      32 bits. When the length wraps below the header, the source goes on outside its array, as
      `SizeExactly` shows; the method stops there. */
  method FillExactly(vs: seq<Value>, header: nat) returns (b: Buffer, ok: bool)
    requires Sized(vs) && header < U32
    ensures fresh(b) && fresh(b.data)
    ensures ok <==> header + |EncodeAll(vs)| < U32
    ensures ok <==> var c := Cursor(b.data.Length, header); Pass(c, vs).Some? && InBounds(c, vs)
    ensures ok ==> b.Valid() && b.FullyUsed() && header <= b.data.Length
    ensures ok ==> b.Contents()[header..] == EncodeAll(vs)
  {
    SizeExactly(vs, header);
    FitsExactly(vs, header);
    b := new Buffer(CalcSize(vs), header);
    if header > b.data.Length {
      return b, false;
    }
    ok := b.WriteAll(vs);
    if ok { PutTail(EncodeAll(vs), b.data[..], header); }
  }
}
