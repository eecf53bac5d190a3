/** src/transport/Buffer.h and Buffer.cpp in their own form: an array of bytes with a moving offset,
    written and read in place. Multi-byte integers are little-endian, as on the x86 hosts the code
    copies them by memory image. */
module Buffers {
  import opened Util
  import opened Wire
  import opened Codec

  /** `d` with `bs` laid over it at `at`. */
  function Put(d: seq<byte>, at: nat, bs: seq<byte>): seq<byte>
    requires at + |bs| <= |d|
  {
    d[..at] + bs + d[at + |bs|..]
  }

  lemma PutNothing(d: seq<byte>, at: nat)
    requires at <= |d|
    ensures Put(d, at, []) == d
  {
  }

  lemma PutTwice(d: seq<byte>, at: nat, a: seq<byte>, b: seq<byte>)
    requires at + |a| + |b| <= |d|
    ensures Put(Put(d, at, a), at + |a|, b) == Put(d, at, a + b)
  {
  }

  /** A head, then a part of a tail. */
  lemma PutParts(was: seq<byte>, at: nat, head: seq<byte>, tail: seq<byte>, k: nat, middle: seq<byte>, now: seq<byte>)
    requires k <= |tail| && at + |head| + k <= |was|
    requires middle == Put(was, at, head) && now == Put(middle, at + |head|, tail[..k])
    ensures now == Put(was, at, (head + tail)[..|head| + k])
  {
    PutTwice(was, at, head, tail[..k]);
    assert (head + tail)[..|head| + k] == head + tail[..k];
  }

  /** Walking a std::map from its least key up. */
  method IterateMap(m: map<nat, nat>, kw: nat, vw: nat) returns (items: seq<Scalar>)
    ensures items == Flat(Ascending(m), kw, vw)
  {
    items := [];
    ghost var done: seq<Pair> := [];
    var rest := m;
    assert done + Ascending(rest) == Ascending(m);
    while rest != map[]
      invariant Ascending(m) == done + Ascending(rest)
      invariant items == Flat(done, kw, vw)
      decreases |rest|
    {
      ghost var least := Least(rest.Keys);
      var k :| k in rest && forall j | j in rest :: k <= j;
      assert k == least;
      FlatAppend(done, Pair(k, rest[k]), kw, vw);
      items := items + [UInt(kw, k), UInt(vw, rest[k])];
      assert done + ([Pair(k, rest[k])] + Ascending(rest - {k})) == done + [Pair(k, rest[k])] + Ascending(rest - {k});
      done := done + [Pair(k, rest[k])];
      assert (rest - {k}).Keys == rest.Keys - {k};
      rest := rest - {k};
    }
    assert done + [] == done;
  }

  class Buffer {
    const data: array<byte>
    var offset: nat

    ghost predicate Valid()
      reads this
    {
      offset <= data.Length < U32
    }

    ghost function Contents(): seq<byte>
      reads this, data
    {
      data[..]
    }

    /** The bytes not yet read. */
    ghost function Ahead(): seq<byte>
      requires Valid()
      reads this, data
    {
      data[offset..]
    }

    /** `Buffer(len, offset)` with `len + header` computed in 32 bits, as by `RequestBuffer`. The
        buffer is usable exactly when the sum does not wrap below the header. */
    constructor (len: nat, header: nat)
      requires len < U32 && header < U32
      ensures data.Length == (len + header) % U32 && offset == header && fresh(data)
      ensures Valid() <==> header <= (len + header) % U32
    {
      var n := (len + header) % U32;
      data := new byte[n](_ => 0);
      offset := header;
    }

    /** `writeData`, and the writers of integers, Ids and signatures: all or nothing. */
    method WriteBytes(bs: seq<byte>) returns (ok: bool)
      requires Valid()
      modifies this, data
      ensures Valid() && (ok <==> old(offset) + |bs| <= data.Length)
      ensures offset == old(offset) + (if ok then |bs| else 0)
      ensures Contents() == if ok then Put(old(Contents()), old(offset), bs) else old(Contents())
    {
      if data.Length - offset < |bs| {
        return false;
      }
      forall i | 0 <= i < |bs| {
        data[offset + i] := bs[i];
      }
      offset := offset + |bs|;
      assert data[..] == Put(old(Contents()), old(offset), bs);
      return true;
    }

    method WriteScalar(s: Scalar) returns (ok: bool)
      requires Valid()
      modifies this, data
      ensures Valid() && (ok <==> old(offset) + |EncodeScalar(s)| <= data.Length)
      ensures offset == old(offset) + (if ok then |EncodeScalar(s)| else 0)
      ensures Contents() == if ok then Put(old(Contents()), old(offset), EncodeScalar(s)) else old(Contents())
    {
      match s
      case UInt(width, v) => ok := WriteBytes(EncodeUInt(v, width));
      case Block(bytes) => ok := WriteBytes(bytes);
    }

    /** What any writer has done when it stops: a prefix of the encoding is in place, and it is the
        whole encoding exactly on success, which is when it fits. */
    twostate predicate Wrote(bs: seq<byte>, ok: bool)
      requires old(Valid())
      reads this, data
    {
      && Valid() && old(offset) <= offset <= old(offset) + |bs|
      && (ok <==> old(offset) + |bs| <= data.Length)
      && (ok ==> offset == old(offset) + |bs|)
      && Contents() == Put(old(Contents()), old(offset), bs[..offset - old(offset)])
    }

    /** Lines 119-127 of Buffer.cpp: the room for count and text is checked first. */
    method WriteString(str: seq<byte>) returns (ok: bool)
      requires Valid()
      modifies this, data
      ensures Wrote(EncodeUInt(|str|, 4) + str, ok)
      ensures !ok ==> offset == old(offset)
    {
      ghost var whole := EncodeUInt(|str|, 4) + str;
      if data.Length - offset < |str| + 4 {
        PutNothing(Contents(), offset);
        return false;
      }
      var done := WriteBytes(EncodeUInt(|str|, 4));
      done := WriteBytes(str);
      PutTwice(old(Contents()), old(offset), EncodeUInt(|str|, 4), str);
      assert whole[..|whole|] == whole;
      return true;
    }

    /** The loop behind the writers of vectors and maps. On failure the items that fitted stay. */
    method WriteScalars(items: seq<Scalar>) returns (ok: bool)
      requires Valid()
      modifies this, data
      ensures Wrote(EncodeScalars(items), ok)
    {
      ghost var whole, done := EncodeScalars(items), [];
      FirstWritten(items, Contents(), offset);
      var i := 0;
      while i < |items|
        invariant 0 <= i <= |items| && Valid()
        invariant offset == old(offset) + |done|
        invariant Written(items, i, done, old(Contents()), old(offset), Contents())
      {
        NextWritten(items, i, done, old(Contents()), old(offset), Contents());
        ok := WriteScalar(items[i]);
        if !ok { return; }
        done := done + EncodeScalar(items[i]);
        i := i + 1;
      }
      LastWritten(items, done, old(Contents()), old(offset), Contents());
      return true;
    }

    /** `write(std::vector<T>&)`. Four bytes of count truncate a larger one, but then the items do
        not fit. */
    method WriteVec(items: seq<Scalar>) returns (ok: bool)
      requires Valid()
      modifies this, data
      ensures Wrote(EncodeUInt(|items|, 4) + EncodeScalars(items), ok)
    {
      ok := WriteCounted(|items|, items);
    }

    method WriteCounted(n: nat, items: seq<Scalar>) returns (ok: bool)
      requires Valid()
      modifies this, data
      ensures Wrote(EncodeUInt(n, 4) + EncodeScalars(items), ok)
    {
      ghost var head, tail := EncodeUInt(n, 4), EncodeScalars(items);
      ok := WriteBytes(EncodeUInt(n, 4));
      if !ok {
        PutNothing(Contents(), offset);
        return;
      }
      ghost var middle := Contents();
      ok := WriteScalars(items);
      PutParts(old(Contents()), old(offset), head, tail, offset - old(offset) - |head|, middle, Contents());
    }

    /** `write(std::map<T, V>&)`: the entries in ascending order of their keys. */
    method WriteMap(m: map<nat, nat>, kw: nat, vw: nat) returns (ok: bool)
      requires Valid()
      modifies this, data
      ensures Wrote(Encode(Table(kw, vw, m)), ok)
    {
      var items := IterateMap(m, kw, vw);
      ok := WriteCounted(|m|, items);
    }

    method WriteValue(v: Value) returns (ok: bool)
      requires Valid()
      modifies this, data
      ensures Wrote(Encode(v), ok)
    {
      match v
      case One(s) =>
        ok := WriteScalar(s);
        PutNothing(old(Contents()), old(offset));
        assert EncodeScalar(s)[..|EncodeScalar(s)|] == EncodeScalar(s);
      case Str(bytes) => ok := WriteString(bytes);
      case Vec(_, items) => ok := WriteVec(items);
      case Table(kw, vw, m) => ok := WriteMap(m, kw, vw);
    }

    /** A series of writes that stops at the first one that throws. */
    method WriteAll(vs: seq<Value>) returns (ok: bool)
      requires Valid()
      modifies this, data
      ensures Valid() && (ok <==> old(offset) + |EncodeAll(vs)| <= data.Length)
      ensures ok ==> offset == old(offset) + |EncodeAll(vs)|
      ensures ok ==> Contents() == Put(old(Contents()), old(offset), EncodeAll(vs))
      decreases |vs|
    {
      if vs == [] {
        PutNothing(Contents(), offset);
        return true;
      }
      ok := WriteValue(vs[0]);
      if ok {
        ghost var e := Encode(vs[0]);
        assert e[..|e|] == e;
        ok := WriteAll(vs[1..]);
        if ok {
          PutTwice(old(Contents()), old(offset), e, EncodeAll(vs[1..]));
        }
      }
    }

    // ---------------------------------------------------------------- reading

    /** `readData`, and the readers of integers, Ids and signatures. */
    method ReadScalar(t: ScalarType) returns (r: Option<Scalar>)
      requires Valid()
      modifies this
      ensures Valid() && Took(TakeScalar(old(Ahead()), t), r)
      ensures r.None? ==> offset == old(offset)
    {
      if data.Length - offset < SizeOf(t) {
        return None;
      }
      r := Some(ToScalar(data[offset..offset + SizeOf(t)], t));
      assert data[offset..][..SizeOf(t)] == data[offset..offset + SizeOf(t)];
      offset := offset + SizeOf(t);
      assert data[offset..] == old(Ahead())[SizeOf(t)..];
    }

    /** The reader returned what the format says and stands behind it, or threw. */
    ghost predicate Took<T>(spec: Read<T>, r: Option<T>)
      requires Valid()
      reads this, data
    {
      match spec
      case Thrown => r.None?
      case Got(v, rest) => r == Some(v) && Ahead() == rest
    }

    /** Lines 109-117 of Buffer.cpp: the count stays consumed when the text is too short. */
    method ReadString() returns (r: Option<seq<byte>>)
      requires Valid()
      modifies this
      ensures Valid()
      ensures match Decode(old(Ahead()), TStr)
              case Thrown => r.None?
              case Got(v, rest) => v.Str? && r == Some(v.bytes) && Ahead() == rest
      ensures r.Some? ==> |r.value| < U32 && old(Ahead()) == EncodeUInt(|r.value|, 4) + r.value + Ahead()
      ensures r.None? ==> forall str: seq<byte>, rest: seq<byte> ::
                |str| < U32 ==> old(Ahead()) != EncodeUInt(|str|, 4) + str + rest
    {
      ghost var all := Ahead();
      if Decode(all, TStr).Got? { StrInverse(all); } else {
        forall str: seq<byte>, rest: seq<byte> | |str| < U32 { StrThrows(all, str, rest); }
      }
      var n := ReadScalar(TUInt(4));
      if n.None? { return None; }
      assert old(Ahead())[4..] == Ahead();
      if data.Length - offset < n.value.v {
        return None;
      }
      r := Some(data[offset..offset + n.value.v]);
      assert data[offset..][..n.value.v] == data[offset..offset + n.value.v];
      ghost var before := Ahead();
      offset := offset + n.value.v;
      assert Ahead() == before[n.value.v..];
    }

    /** The loop of `readVec`. */
    method ReadScalars(t: ScalarType, n: nat) returns (r: Option<seq<Scalar>>)
      requires Valid()
      modifies this
      ensures Valid() && Took(TakeScalars(old(Ahead()), t, n), r)
    {
      var items: seq<Scalar> := [];
      ghost var whole := TakeScalars(Ahead(), t, n);
      FirstItems(Ahead(), t, n);
      var i := 0;
      while i < n
        invariant 0 <= i <= n && Valid() && ItemsLeft(Ahead(), t, n - i, items, whole)
      {
        NextItem(Ahead(), t, n - i, items, whole);
        var s := ReadScalar(t);
        if s.None? { return None; }
        items := items + [s.value];
        i := i + 1;
      }
      LastItem(Ahead(), t, items, whole);
      return Some(items);
    }

    method ReadVec(t: ScalarType) returns (r: Option<seq<Scalar>>)
      requires Valid()
      modifies this
      ensures Valid()
      ensures match Decode(old(Ahead()), TVec(t))
              case Thrown => r.None?
              case Got(v, rest) => v.Vec? && r == Some(v.items) && Ahead() == rest
    {
      var n := ReadScalar(TUInt(4));
      if n.None? { return None; }
      assert old(Ahead())[4..] == Ahead();
      r := ReadScalars(t, n.value.v);
    }

    /** A key and its value. */
    method ReadPair(kw: nat, vw: nat) returns (r: Option<Pair>)
      requires Valid()
      modifies this
      ensures Valid() && Took(TakePair(old(Ahead()), kw, vw), r)
    {
      var key := ReadScalar(TUInt(kw));
      if key.None? { return None; }
      var val := ReadScalar(TUInt(vw));
      if val.None? { return None; }
      return Some(Pair(key.value.v, val.value.v));
    }

    /** One turn of the loop of `readMap`: of `n` entries still to come, the first goes into `m`. */
    method ReadEntry(kw: nat, vw: nat, m: map<nat, nat>, ghost n: nat, ghost whole: Read<map<nat, nat>>)
      returns (r: Option<map<nat, nat>>)
      requires Valid() && n > 0 && EntriesLeft(Ahead(), kw, vw, n, m, whole)
      modifies this
      ensures Valid() && (r.None? <==> TakePair(old(Ahead()), kw, vw) == Thrown)
      ensures if r.None? then whole == Thrown else EntriesLeft(Ahead(), kw, vw, n - 1, r.value, whole)
    {
      ghost var left := Ahead();
      var p := ReadPair(kw, vw);
      if p.None? {
        NoEntry(left, kw, vw, n, m, whole);
        return None;
      }
      NextEntry(left, kw, vw, n, m, whole, p.value, Ahead());
      return Some(m[p.value.key := p.value.val]);
    }

    /** The loop of `readMap`. */
    method ReadEntries(kw: nat, vw: nat, n: nat) returns (r: Option<map<nat, nat>>)
      requires Valid()
      modifies this
      ensures Valid() && Took(TakeEntries(old(Ahead()), kw, vw, n, map[]), r)
    {
      var m: map<nat, nat> := map[];
      ghost var whole := TakeEntries(Ahead(), kw, vw, n, map[]);
      var i := 0;
      while i < n
        invariant 0 <= i <= n && Valid() && EntriesLeft(Ahead(), kw, vw, n - i, m, whole)
      {
        r := ReadEntry(kw, vw, m, n - i, whole);
        if r.None? { return; }
        m := r.value;
        i := i + 1;
      }
      LastEntry(Ahead(), kw, vw, m, whole);
      return Some(m);
    }

    /** `readMap`. */
    method ReadMap(kw: nat, vw: nat) returns (r: Option<map<nat, nat>>)
      requires Valid()
      modifies this
      ensures Valid()
      ensures match Decode(old(Ahead()), TTable(kw, vw))
              case Thrown => r.None?
              case Got(v, rest) => v.Table? && r == Some(v.entries) && Ahead() == rest
    {
      var n := ReadScalar(TUInt(4));
      if n.None? { return None; }
      assert old(Ahead())[4..] == Ahead();
      r := ReadEntries(kw, vw, n.value.v);
    }

    method ReadValue(t: Schema) returns (r: Option<Value>)
      requires Valid()
      modifies this
      ensures Valid() && Took(Decode(old(Ahead()), t), r)
    {
      match t {
        case TOne(st) =>
          var s := ReadScalar(st);
          r := if s.None? then None else Some(One(s.value));
        case TStr =>
          var s := ReadString();
          r := if s.None? then None else Some(Str(s.value));
        case TVec(e) =>
          var q := ReadVec(e);
          r := if q.None? then None else Some(Vec(e, q.value));
        case TTable(kw, vw) =>
          var m := ReadMap(kw, vw);
          r := if m.None? then None else Some(Table(kw, vw, m.value));
      }
    }

    /** A series of reads that stops at the first one that throws. */
    method ReadAll(ts: seq<Schema>) returns (r: Option<seq<Value>>)
      requires Valid()
      modifies this
      ensures Valid() && Took(DecodeAll(old(Ahead()), ts), r)
      decreases |ts|
    {
      if ts == [] { return Some([]); }
      var v := ReadValue(ts[0]);
      if v.None? { return None; }
      var vs := ReadAll(ts[1..]);
      r := if vs.None? then None else Some([v.value] + vs.value);
    }

    /** `assertFullyUsed`. */
    predicate FullyUsed()
      reads this
    {
      offset == data.Length
    }
  }

  /** With `items` read and `n` to go from `bs`, the whole read will be `whole`. */
  ghost predicate ItemsLeft(bs: seq<byte>, t: ScalarType, n: nat, items: seq<Scalar>, whole: Read<seq<Scalar>>) {
    match TakeScalars(bs, t, n)
    case Thrown => whole == Thrown
    case Got(q, rest) => whole == Got(items + q, rest)
  }

  lemma FirstItems(bs: seq<byte>, t: ScalarType, n: nat)
    ensures ItemsLeft(bs, t, n, [], TakeScalars(bs, t, n))
  {
    var r := TakeScalars(bs, t, n);
    if r.Got? { assert [] + r.value == r.value; }
  }

  lemma NextItem(bs: seq<byte>, t: ScalarType, n: nat, items: seq<Scalar>, whole: Read<seq<Scalar>>)
    requires n > 0 && ItemsLeft(bs, t, n, items, whole)
    ensures match TakeScalar(bs, t)
            case Thrown => whole == Thrown
            case Got(s, rest) => ItemsLeft(rest, t, n - 1, items + [s], whole)
  {
    var r := TakeScalar(bs, t);
    if r.Got? {
      var later := TakeScalars(r.rest, t, n - 1);
      if later.Got? {
        assert items + ([r.value] + later.value) == items + [r.value] + later.value;
      }
    }
  }

  lemma LastItem(bs: seq<byte>, t: ScalarType, items: seq<Scalar>, whole: Read<seq<Scalar>>)
    requires ItemsLeft(bs, t, 0, items, whole)
    ensures whole == Got(items, bs)
  {
    assert items + [] == items;
  }

  ghost predicate EntriesLeft(bs: seq<byte>, kw: nat, vw: nat, n: nat, m: map<nat, nat>, whole: Read<map<nat, nat>>) {
    TakeEntries(bs, kw, vw, n, m) == whole
  }

  lemma NoEntry(bs: seq<byte>, kw: nat, vw: nat, n: nat, m: map<nat, nat>, whole: Read<map<nat, nat>>)
    requires n > 0 && EntriesLeft(bs, kw, vw, n, m, whole) && TakePair(bs, kw, vw) == Thrown
    ensures whole == Thrown
  {
  }

  lemma NextEntry(bs: seq<byte>, kw: nat, vw: nat, n: nat, m: map<nat, nat>, whole: Read<map<nat, nat>>,
                  p: Pair, rest: seq<byte>)
    requires n > 0 && EntriesLeft(bs, kw, vw, n, m, whole) && TakePair(bs, kw, vw) == Got(p, rest)
    ensures EntriesLeft(rest, kw, vw, n - 1, m[p.key := p.val], whole)
  {
  }

  lemma LastEntry(bs: seq<byte>, kw: nat, vw: nat, m: map<nat, nat>, whole: Read<map<nat, nat>>)
    requires EntriesLeft(bs, kw, vw, 0, m, whole)
    ensures whole == Got(m, bs)
  {
  }

  /** `now` is `was` with the encodings `done` of the first `i` items laid over it at `at`. */
  ghost predicate Written(items: seq<Scalar>, i: nat, done: seq<byte>, was: seq<byte>, at: nat, now: seq<byte>) {
    && i <= |items| && done == EncodeScalars(items[..i])
    && at + |done| <= |was| && now == Put(was, at, done)
  }

  lemma FirstWritten(items: seq<Scalar>, was: seq<byte>, at: nat)
    requires at <= |was|
    ensures Written(items, 0, [], was, at, was)
  {
    PutNothing(was, at);
  }

  lemma NextWritten(items: seq<Scalar>, i: nat, done: seq<byte>, was: seq<byte>, at: nat, now: seq<byte>)
    requires i < |items| && Written(items, i, done, was, at, now)
    ensures var whole, next := EncodeScalars(items), EncodeScalar(items[i]);
      && |done| + |next| <= |whole| && whole[..|done|] == done && |now| == |was|
      && (at + |done| + |next| <= |was| ==>
           Written(items, i + 1, done + next, was, at, Put(now, at + |done|, next)))
  {
    Prefixes(items, i);
    var next := EncodeScalar(items[i]);
    if at + |done| + |next| <= |was| {
      PutTwice(was, at, done, next);
    }
  }

  lemma LastWritten(items: seq<Scalar>, done: seq<byte>, was: seq<byte>, at: nat, now: seq<byte>)
    requires Written(items, |items|, done, was, at, now)
    ensures done == EncodeScalars(items) && done[..|done|] == done
  {
    assert items[..|items|] == items && done[..|done|] == done;
  }

  lemma {:induction false} Prefixes(items: seq<Scalar>, i: nat)
    requires i < |items|
    ensures EncodeScalars(items[..i + 1]) == EncodeScalars(items[..i]) + EncodeScalar(items[i])
    ensures EncodeScalars(items[..i + 1]) <= EncodeScalars(items)
  {
    assert items[..i + 1] == items[..i] + [items[i]];
    EncodeScalarsAppend(items[..i], items[i]);
    PrefixOf(items, i + 1);
  }

  lemma {:induction false} PrefixOf(items: seq<Scalar>, i: nat)
    requires i <= |items|
    ensures EncodeScalars(items[..i]) <= EncodeScalars(items)
  {
    if i > 0 {
      assert items[..i][1..] == items[1..][..i - 1];
      PrefixOf(items[1..], i - 1);
    }
  }

  /** Round trip in place: whatever is written at some offset with enough room is read back from
      there under the same schemas, equal and up to exactly where the writing stopped. */
  method WriteThenRead(b: Buffer, vs: seq<Value>, ts: seq<Schema>) returns (r: Option<seq<Value>>)
    requires b.Valid() && b.offset + |EncodeAll(vs)| <= b.data.Length
    requires |vs| == |ts| && forall i | 0 <= i < |vs| :: Fits(vs[i], ts[i])
    modifies b, b.data
    ensures b.Valid() && r == Some(vs) && b.offset == old(b.offset) + |EncodeAll(vs)|
  {
    var start := b.offset;
    ghost var rest := b.data[b.offset + |EncodeAll(vs)|..];
    var ok := b.WriteAll(vs);
    b.offset := start;
    assert b.Ahead() == EncodeAll(vs) + rest;
    RoundTripAll(vs, ts, rest);
    r := b.ReadAll(ts);
    assert |b.Ahead()| == |rest|;
  }
}
