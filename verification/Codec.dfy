/** The formats of src/transport/Buffer.h and Buffer.cpp as functions on byte sequences: what is
    written and what is read back. */
module Codec {
  import opened Wire

  const ID_SIZE: nat := 32
  const SIGNATURE_SIZE: nat := 72

  /** An unsigned integer of some width, or a block of fixed size: an Id or a signature. */
  datatype Scalar = UInt(width: nat, v: nat) | Block(bytes: seq<byte>)

  datatype ScalarType = TUInt(width: nat) | TBlock(size: nat)

  datatype Value =
    | One(s: Scalar)
    | Str(bytes: seq<byte>)
    | Vec(element: ScalarType, items: seq<Scalar>)
    | Table(keyWidth: nat, valueWidth: nat, entries: map<nat, nat>)

  datatype Schema =
    | TOne(t: ScalarType)
    | TStr
    | TVec(element: ScalarType)
    | TTable(keyWidth: nat, valueWidth: nat)

  predicate FitsScalar(s: Scalar, t: ScalarType) {
    match t
    case TUInt(w) => s.UInt? && s.width == w && s.v < Range(w)
    case TBlock(n) => s.Block? && |s.bytes| == n
  }

  /** The values of a schema that can be written at all. */
  ghost predicate Fits(v: Value, t: Schema) {
    match t
    case TOne(st) => v.One? && FitsScalar(v.s, st)
    case TStr => v.Str? && |v.bytes| < U32
    case TVec(e) => v.Vec? && v.element == e && |v.items| < U32
                    && forall i | 0 <= i < |v.items| :: FitsScalar(v.items[i], e)
    case TTable(kw, vw) => v.Table? && v.keyWidth == kw && v.valueWidth == vw && |v.entries| < U32
                           && forall k | k in v.entries :: k < Range(kw) && v.entries[k] < Range(vw)
  }

  // ------------------------------------------------------------------ writing

  function EncodeScalar(s: Scalar): seq<byte> {
    if s.UInt? then EncodeUInt(s.v, s.width) else s.bytes
  }

  function EncodeScalars(q: seq<Scalar>): seq<byte> {
    if q == [] then [] else EncodeScalar(q[0]) + EncodeScalars(q[1..])
  }

  lemma {:induction false} EncodeScalarsAppend(q: seq<Scalar>, s: Scalar)
    ensures EncodeScalars(q + [s]) == EncodeScalars(q) + EncodeScalar(s)
  {
    if q == [] {
      assert q + [s] == [s];
      assert EncodeScalars([s]) == EncodeScalar(s) + EncodeScalars([]);
    } else {
      assert (q + [s])[1..] == q[1..] + [s];
      EncodeScalarsAppend(q[1..], s);
    }
  }

  ghost function Least(keys: set<nat>): (k: nat)
    requires keys != {}
    ensures k in keys && forall j | j in keys :: k <= j
  {
    var k :| k in keys;
    if keys == {k} then k else
    var other := Least(keys - {k});
    assert forall j | j in keys :: j == k || j in keys - {k};
    if other < k then other else k
  }

  datatype Pair = Pair(key: nat, val: nat)

  /** A std::map as it is iterated: by ascending keys. */
  ghost function Ascending(m: map<nat, nat>): seq<Pair>
    decreases |m|
  {
    if m == map[] then [] else
    var k := Least(m.Keys);
    [Pair(k, m[k])] + Ascending(m - {k})
  }

  /** Keys and values alternate. */
  function Flat(ps: seq<Pair>, kw: nat, vw: nat): seq<Scalar> {
    if ps == [] then [] else [UInt(kw, ps[0].key), UInt(vw, ps[0].val)] + Flat(ps[1..], kw, vw)
  }

  lemma {:induction false} FlatAppend(ps: seq<Pair>, p: Pair, kw: nat, vw: nat)
    ensures Flat(ps + [p], kw, vw) == Flat(ps, kw, vw) + [UInt(kw, p.key), UInt(vw, p.val)]
  {
    if ps == [] {
      assert ps + [p] == [p];
      assert Flat([p][1..], kw, vw) == [];
    } else {
      assert (ps + [p])[1..] == ps[1..] + [p];
      FlatAppend(ps[1..], p, kw, vw);
    }
  }

  ghost function Encode(v: Value): seq<byte> {
    match v
    case One(s) => EncodeScalar(s)
    case Str(bytes) => EncodeUInt(|bytes|, 4) + bytes
    case Vec(_, items) => EncodeUInt(|items|, 4) + EncodeScalars(items)
    case Table(kw, vw, m) => EncodeUInt(|m|, 4) + EncodeScalars(Flat(Ascending(m), kw, vw))
  }

  ghost function EncodeAll(vs: seq<Value>): seq<byte> {
    if vs == [] then [] else Encode(vs[0]) + EncodeAll(vs[1..])
  }

  // ------------------------------------------------------------------ reading

  /** A read either throws or gives a value and leaves the rest. */
  datatype Read<T> = Thrown | Got(value: T, rest: seq<byte>)

  function SizeOf(t: ScalarType): nat {
    if t.TUInt? then t.width else t.size
  }

  function ToScalar(bs: seq<byte>, t: ScalarType): Scalar {
    if t.TUInt? then UInt(t.width, DecodeUInt(bs)) else Block(bs)
  }

  function TakeScalar(bs: seq<byte>, t: ScalarType): (r: Read<Scalar>)
    ensures r.Got? && t.TUInt? ==> r.value.UInt?
  {
    if |bs| < SizeOf(t) then Thrown else Got(ToScalar(bs[..SizeOf(t)], t), bs[SizeOf(t)..])
  }

  function TakeScalars(bs: seq<byte>, t: ScalarType, n: nat): Read<seq<Scalar>> {
    if n == 0 then Got([], bs) else
    match TakeScalar(bs, t)
    case Thrown => Thrown
    case Got(s, rest) =>
      match TakeScalars(rest, t, n - 1)
      case Thrown => Thrown
      case Got(q, rest') => Got([s] + q, rest')
  }

  function TakePair(bs: seq<byte>, kw: nat, vw: nat): Read<Pair> {
    match TakeScalar(bs, TUInt(kw))
    case Thrown => Thrown
    case Got(key, rest) =>
      match TakeScalar(rest, TUInt(vw))
      case Thrown => Thrown
      case Got(val, rest') => Got(Pair(key.v, val.v), rest')
  }

  /** `readMap`: a key read again replaces the value read before. */
  function TakeEntries(bs: seq<byte>, kw: nat, vw: nat, n: nat, m: map<nat, nat>): Read<map<nat, nat>>
    decreases n
  {
    if n == 0 then Got(m, bs) else
    match TakePair(bs, kw, vw)
    case Thrown => Thrown
    case Got(p, rest) => TakeEntries(rest, kw, vw, n - 1, m[p.key := p.val])
  }

  function Decode(bs: seq<byte>, t: Schema): Read<Value> {
    if t.TOne? then
      match TakeScalar(bs, t.t)
      case Thrown => Thrown
      case Got(s, rest) => Got(One(s), rest)
    else
    if |bs| < 4 then Thrown else DecodeCounted(DecodeUInt(bs[..4]), bs[4..], t)
  }

  /** The part after the 4-byte count. */
  function DecodeCounted(n: nat, rest: seq<byte>, t: Schema): Read<Value> {
    match t
    case TOne(_) => Thrown
    case TStr => if |rest| < n then Thrown else Got(Str(rest[..n]), rest[n..])
    case TVec(e) =>
      (match TakeScalars(rest, e, n)
       case Thrown => Thrown
       case Got(q, rest') => Got(Vec(e, q), rest'))
    case TTable(kw, vw) =>
      (match TakeEntries(rest, kw, vw, n, map[])
       case Thrown => Thrown
       case Got(m, rest') => Got(Table(kw, vw, m), rest'))
  }

  function DecodeAll(bs: seq<byte>, ts: seq<Schema>): Read<seq<Value>>
    decreases |ts|
  {
    if ts == [] then Got([], bs) else
    match Decode(bs, ts[0])
    case Thrown => Thrown
    case Got(v, rest) =>
      match DecodeAll(rest, ts[1..])
      case Thrown => Thrown
      case Got(vs, rest') => Got([v] + vs, rest')
  }

  // ------------------------------------------------------------------ round trip

  lemma ScalarRoundTrip(s: Scalar, t: ScalarType, rest: seq<byte>)
    requires FitsScalar(s, t)
    ensures |EncodeScalar(s)| == SizeOf(t)
    ensures TakeScalar(EncodeScalar(s) + rest, t) == Got(s, rest)
  {
    TakeHead(EncodeScalar(s), rest);
    if s.UInt? { UIntRoundTrip(s.v, s.width); }
  }

  lemma {:induction false} ScalarsRoundTrip(q: seq<Scalar>, t: ScalarType, rest: seq<byte>)
    requires forall i | 0 <= i < |q| :: FitsScalar(q[i], t)
    ensures TakeScalars(EncodeScalars(q) + rest, t, |q|) == Got(q, rest)
  {
    if q == [] {
      assert EncodeScalars(q) + rest == rest;
    } else {
      assert EncodeScalars(q) + rest == EncodeScalar(q[0]) + (EncodeScalars(q[1..]) + rest);
      ScalarRoundTrip(q[0], t, EncodeScalars(q[1..]) + rest);
      ScalarsRoundTrip(q[1..], t, rest);
      assert [q[0]] + q[1..] == q;
    }
  }

  lemma PairRoundTrip(p: Pair, kw: nat, vw: nat, tail: seq<byte>)
    requires p.key < Range(kw) && p.val < Range(vw)
    ensures TakePair(EncodeScalar(UInt(kw, p.key)) + (EncodeScalar(UInt(vw, p.val)) + tail), kw, vw) == Got(p, tail)
  {
    ScalarRoundTrip(UInt(kw, p.key), TUInt(kw), EncodeScalar(UInt(vw, p.val)) + tail);
    ScalarRoundTrip(UInt(vw, p.val), TUInt(vw), tail);
  }

  lemma EncodeCons(a: Scalar, q: seq<Scalar>)
    ensures EncodeScalars([a] + q) == EncodeScalar(a) + EncodeScalars(q)
  {
    assert ([a] + q)[1..] == q;
  }

  lemma Regroup(x: seq<byte>, y: seq<byte>, z: seq<byte>, rest: seq<byte>)
    ensures x + (y + z) + rest == x + (y + (z + rest))
  {
  }

  lemma EncodeTwo(a: Scalar, b: Scalar, q: seq<Scalar>, rest: seq<byte>)
    ensures EncodeScalars([a, b] + q) + rest == EncodeScalar(a) + (EncodeScalar(b) + (EncodeScalars(q) + rest))
  {
    assert [a, b] + q == [a] + ([b] + q);
    EncodeCons(a, [b] + q);
    EncodeCons(b, q);
    Regroup(EncodeScalar(a), EncodeScalar(b), EncodeScalars(q), rest);
  }

  lemma EntriesStep(p: Pair, kw: nat, vw: nat, next: seq<Scalar>, rest: seq<byte>, n: nat, read: map<nat, nat>)
    requires p.key < Range(kw) && p.val < Range(vw) && n > 0
    ensures TakeEntries(EncodeScalars([UInt(kw, p.key), UInt(vw, p.val)] + next) + rest, kw, vw, n, read)
            == TakeEntries(EncodeScalars(next) + rest, kw, vw, n - 1, read[p.key := p.val])
  {
    EncodeTwo(UInt(kw, p.key), UInt(vw, p.val), next, rest);
    PairRoundTrip(p, kw, vw, EncodeScalars(next) + rest);
  }

  /** `read` with the pairs assigned one after the other. */
  function Overlay(read: map<nat, nat>, ps: seq<Pair>): map<nat, nat>
    decreases |ps|
  {
    if ps == [] then read else Overlay(read[ps[0].key := ps[0].val], ps[1..])
  }

  lemma {:induction false} PairsRoundTrip(ps: seq<Pair>, kw: nat, vw: nat, rest: seq<byte>, read: map<nat, nat>)
    requires forall i | 0 <= i < |ps| :: ps[i].key < Range(kw) && ps[i].val < Range(vw)
    ensures TakeEntries(EncodeScalars(Flat(ps, kw, vw)) + rest, kw, vw, |ps|, read) == Got(Overlay(read, ps), rest)
    decreases |ps|
  {
    if ps == [] {
      assert EncodeScalars([]) + rest == rest;
    } else {
      EntriesStep(ps[0], kw, vw, Flat(ps[1..], kw, vw), rest, |ps|, read);
      PairsRoundTrip(ps[1..], kw, vw, rest, read[ps[0].key := ps[0].val]);
    }
  }

  lemma Smaller(m: map<nat, nat>, k: nat)
    requires k in m
    ensures |m - {k}| == |m| - 1
  {
    assert (m - {k}).Keys == m.Keys - {k};
  }

  lemma AssignFirst(read: map<nat, nat>, m: map<nat, nat>, k: nat)
    requires k in m
    ensures read[k := m[k]] + (m - {k}) == read + m
  {
  }

  /** The ascending pairs are as many as the entries, and assigning them gives the map. */
  lemma {:induction false} AscendingIsMap(m: map<nat, nat>, read: map<nat, nat>)
    ensures |Ascending(m)| == |m| && Overlay(read, Ascending(m)) == read + m
    decreases |m|
  {
    if m == map[] {
      assert read + m == read;
    } else {
      var k := Least(m.Keys);
      var rest, more := m - {k}, read[k := m[k]];
      Smaller(m, k);
      AssignFirst(read, m, k);
      AscendingIsMap(rest, more);
      OverlayCons(read, Pair(k, m[k]), Ascending(rest));
    }
  }

  lemma OverlayCons(read: map<nat, nat>, p: Pair, ps: seq<Pair>)
    ensures Overlay(read, [p] + ps) == Overlay(read[p.key := p.val], ps)
  {
    assert ([p] + ps)[1..] == ps;
  }

  /** They are the entries of the map, by strictly ascending keys. */
  lemma {:induction false} AscendingEntries(m: map<nat, nat>)
    ensures forall i | 0 <= i < |Ascending(m)| :: EntryAt(m, i)
    decreases |m|
  {
    if m != map[] {
      var k := Least(m.Keys);
      var rest := m - {k};
      Smaller(m, k);
      AscendingEntries(rest);
      forall i | 0 <= i < |Ascending(m)| ensures EntryAt(m, i) {
        if i > 0 {
          assert Ascending(m)[i] == Ascending(rest)[i - 1];
          assert EntryAt(rest, i - 1);
          if i > 1 { assert Ascending(m)[i - 1] == Ascending(rest)[i - 2]; }
        }
      }
    }
  }

  ghost predicate EntryAt(m: map<nat, nat>, i: nat)
    requires i < |Ascending(m)|
  {
    var p := Ascending(m)[i];
    && p.key in m && m[p.key] == p.val
    && (i > 0 ==> Ascending(m)[i - 1].key < p.key)
  }

  lemma EntriesRoundTrip(m: map<nat, nat>, kw: nat, vw: nat, rest: seq<byte>)
    requires forall k | k in m :: k < Range(kw) && m[k] < Range(vw)
    ensures TakeEntries(EncodeScalars(Flat(Ascending(m), kw, vw)) + rest, kw, vw, |m|, map[]) == Got(m, rest)
  {
    AscendingIsMap(m, map[]);
    AscendingEntries(m);
    forall i | 0 <= i < |Ascending(m)|
      ensures Ascending(m)[i].key < Range(kw) && Ascending(m)[i].val < Range(vw)
    {
      assert EntryAt(m, i);
    }
    assert map[] + m == m;
    PairsRoundTrip(Ascending(m), kw, vw, rest, map[]);
  }

  lemma Counted(n: nat, body: seq<byte>)
    requires n < U32
    ensures DecodeUInt((EncodeUInt(n, 4) + body)[..4]) == n && (EncodeUInt(n, 4) + body)[4..] == body
  {
    Ranges();
    UIntRoundTrip(n, 4);
    TakeHead(EncodeUInt(n, 4), body);
  }

  /** A value with a count in front is read by reading the count, then its body. */
  lemma CountedRoundTrip(v: Value, t: Schema, n: nat, body: seq<byte>, rest: seq<byte>)
    requires !t.TOne? && n < U32 && DecodeCounted(n, body + rest, t) == Got(v, rest)
    ensures Decode(EncodeUInt(n, 4) + body + rest, t) == Got(v, rest)
  {
    Counted(n, body + rest);
    assert EncodeUInt(n, 4) + body + rest == EncodeUInt(n, 4) + (body + rest);
  }

  lemma RoundTrip(v: Value, t: Schema, rest: seq<byte>)
    requires Fits(v, t)
    ensures Decode(Encode(v) + rest, t) == Got(v, rest)
  {
    match v
    case One(s) => ScalarRoundTrip(s, t.t, rest);
    case Str(bytes) => CountedRoundTrip(v, t, |bytes|, bytes, rest);
    case Vec(e, items) =>
      ScalarsRoundTrip(items, e, rest);
      CountedRoundTrip(v, t, |items|, EncodeScalars(items), rest);
    case Table(kw, vw, m) =>
      EntriesRoundTrip(m, kw, vw, rest);
      CountedRoundTrip(v, t, |m|, EncodeScalars(Flat(Ascending(m), kw, vw)), rest);
  }

  /** Round trip of any sequence of values under its schemas: equal values come back and exactly the
      bytes written are consumed. */
  lemma {:induction false} RoundTripAll(vs: seq<Value>, ts: seq<Schema>, rest: seq<byte>)
    requires |vs| == |ts| && forall i | 0 <= i < |vs| :: Fits(vs[i], ts[i])
    ensures DecodeAll(EncodeAll(vs) + rest, ts) == Got(vs, rest)
    decreases |vs|
  {
    if vs == [] {
      assert EncodeAll(vs) + rest == rest;
    } else {
      var bs, later := EncodeAll(vs) + rest, EncodeAll(vs[1..]) + rest;
      assert bs == Encode(vs[0]) + later;
      RoundTrip(vs[0], ts[0], later);
      RoundTripAll(vs[1..], ts[1..], rest);
      DecodeCons(bs, later, ts, vs, rest);
    }
  }

  lemma DecodeCons(bs: seq<byte>, later: seq<byte>, ts: seq<Schema>, vs: seq<Value>, rest: seq<byte>)
    requires ts != [] && vs != [] && Decode(bs, ts[0]) == Got(vs[0], later)
    requires DecodeAll(later, ts[1..]) == Got(vs[1..], rest)
    ensures DecodeAll(bs, ts) == Got(vs, rest)
  {
    assert [vs[0]] + vs[1..] == vs;
  }

  /** A string is read exactly from bytes that begin with its count and its text. */
  lemma StrInverse(bs: seq<byte>)
    requires Decode(bs, TStr).Got?
    ensures var v := Decode(bs, TStr).value;
            v.Str? && |v.bytes| < U32 && bs == EncodeUInt(|v.bytes|, 4) + v.bytes + Decode(bs, TStr).rest
  {
    var n := DecodeUInt(bs[..4]);
    Ranges();
    UIntBound(bs[..4]);
    UIntInverse(bs[..4]);
    assert bs == bs[..4] + (bs[4..4 + n] + bs[4 + n..]);
  }

  lemma StrThrows(bs: seq<byte>, str: seq<byte>, rest: seq<byte>)
    requires Decode(bs, TStr) == Thrown && |str| < U32
    ensures bs != EncodeUInt(|str|, 4) + str + rest
  {
    RoundTrip(Str(str), TStr, rest);
  }
}
