/** What the readers of src/transport/Buffer.h and Buffer.cpp accept, and how the bytes lie: the inverse
    of the round trip. A read succeeds on exactly the bytes that begin with a value written in full. */
module Formats {
  import opened Wire
  import opened Codec

  lemma ScalarInverse(bs: seq<byte>, t: ScalarType)
    requires TakeScalar(bs, t).Got?
    ensures FitsScalar(TakeScalar(bs, t).value, t)
    ensures bs == EncodeScalar(TakeScalar(bs, t).value) + TakeScalar(bs, t).rest
  {
    UIntInverse(bs[..SizeOf(t)]);
    UIntBound(bs[..SizeOf(t)]);
  }

  lemma {:induction false} ScalarsInverse(bs: seq<byte>, t: ScalarType, n: nat) returns (q: seq<Scalar>, rest: seq<byte>)
    requires TakeScalars(bs, t, n).Got?
    ensures TakeScalars(bs, t, n) == Got(q, rest) && |q| == n
    ensures forall i | 0 <= i < n :: FitsScalar(q[i], t)
    ensures bs == EncodeScalars(q) + rest
    decreases n
  {
    if n == 0 {
      q, rest := [], bs;
    } else {
      ScalarInverse(bs, t);
      var first := TakeScalar(bs, t);
      var later;
      later, rest := ScalarsInverse(first.rest, t, n - 1);
      q := [first.value] + later;
      EncodeCons(first.value, later);
      Regroup2(EncodeScalar(first.value), EncodeScalars(later), rest);
    }
  }

  lemma Regroup2(x: seq<byte>, y: seq<byte>, rest: seq<byte>)
    ensures x + (y + rest) == x + y + rest
  {
  }

  predicate InRange(p: Pair, kw: nat, vw: nat) {
    p.key < Range(kw) && p.val < Range(vw)
  }

  lemma PairInverse(bs: seq<byte>, kw: nat, vw: nat)
    requires TakePair(bs, kw, vw).Got?
    ensures var p := TakePair(bs, kw, vw).value;
            && InRange(p, kw, vw)
            && bs == EncodeScalar(UInt(kw, p.key)) + (EncodeScalar(UInt(vw, p.val)) + TakePair(bs, kw, vw).rest)
  {
    ScalarInverse(bs, TUInt(kw));
    ScalarInverse(TakeScalar(bs, TUInt(kw)).rest, TUInt(vw));
  }

  /** The pairs that the loop of `readMap` takes. */
  lemma {:induction false} EntriesInverse(bs: seq<byte>, kw: nat, vw: nat, n: nat, m: map<nat, nat>) returns (ps: seq<Pair>)
    requires TakeEntries(bs, kw, vw, n, m).Got?
    ensures |ps| == n && (forall i | 0 <= i < n :: InRange(ps[i], kw, vw))
    ensures TakeEntries(bs, kw, vw, n, m).value == Overlay(m, ps)
    ensures bs == EncodeScalars(Flat(ps, kw, vw)) + TakeEntries(bs, kw, vw, n, m).rest
    decreases n
  {
    ps := [];
    if n > 0 {
      PairInverse(bs, kw, vw);
      var p := TakePair(bs, kw, vw);
      var later := EntriesInverse(p.rest, kw, vw, n - 1, m[p.value.key := p.value.val]);
      ps := [p.value] + later;
      OverlayCons(m, p.value, later);
      var rest := TakeEntries(bs, kw, vw, n, m).rest;
      assert ps[1..] == later;
      EncodeTwo(UInt(kw, p.value.key), UInt(vw, p.value.val), Flat(later, kw, vw), rest);
    }
  }

  /** Pairs that are written out behind their number. A map read from them takes the last value for
      each key; `Encode` writes each key once and in ascending order. */
  ghost predicate TableBytes(bs: seq<byte>, kw: nat, vw: nat, ps: seq<Pair>, v: Value, rest: seq<byte>) {
    && |ps| < U32 && (forall i | 0 <= i < |ps| :: InRange(ps[i], kw, vw))
    && v == Table(kw, vw, Overlay(map[], ps))
    && bs == EncodeUInt(|ps|, 4) + EncodeScalars(Flat(ps, kw, vw)) + rest
  }

  /** `bs` begins with a value of the schema, written in full, and goes on with `rest`. */
  ghost predicate BeginsWith(bs: seq<byte>, t: Schema, v: Value, rest: seq<byte>) {
    if t.TTable? then exists ps :: TableBytes(bs, t.keyWidth, t.valueWidth, ps, v, rest)
    else Fits(v, t) && bs == Encode(v) + rest
  }

  /** The count in front of a counted value. */
  lemma CountInverse(bs: seq<byte>)
    requires |bs| >= 4
    ensures DecodeUInt(bs[..4]) < U32 && bs == EncodeUInt(DecodeUInt(bs[..4]), 4) + bs[4..]
  {
    Ranges();
    UIntInverse(bs[..4]);
    UIntBound(bs[..4]);
  }

  lemma TableInverse(bs: seq<byte>, t: Schema)
    requires t.TTable? && Decode(bs, t).Got?
    ensures BeginsWith(bs, t, Decode(bs, t).value, Decode(bs, t).rest)
  {
    CountInverse(bs);
    var n, r := DecodeUInt(bs[..4]), Decode(bs, t);
    var ps := EntriesInverse(bs[4..], t.keyWidth, t.valueWidth, n, map[]);
    var body := EncodeScalars(Flat(ps, t.keyWidth, t.valueWidth));
    assert EncodeUInt(n, 4) + (body + r.rest) == EncodeUInt(n, 4) + body + r.rest;
    assert TableBytes(bs, t.keyWidth, t.valueWidth, ps, r.value, r.rest);
  }

  lemma VecInverse(bs: seq<byte>, t: Schema)
    requires t.TVec? && Decode(bs, t).Got?
    ensures BeginsWith(bs, t, Decode(bs, t).value, Decode(bs, t).rest)
  {
    CountInverse(bs);
    var n := DecodeUInt(bs[..4]);
    var q, rest := ScalarsInverse(bs[4..], t.element, n);
    Regroup2(EncodeUInt(n, 4), EncodeScalars(q), rest);
  }

  lemma TableAgain(bs: seq<byte>, t: Schema, ps: seq<Pair>, v: Value, rest: seq<byte>)
    requires t.TTable? && TableBytes(bs, t.keyWidth, t.valueWidth, ps, v, rest)
    ensures Decode(bs, t) == Got(v, rest)
  {
    PairsRoundTrip(ps, t.keyWidth, t.valueWidth, rest, map[]);
    CountedRoundTrip(v, t, |ps|, EncodeScalars(Flat(ps, t.keyWidth, t.valueWidth)), rest);
  }

  /** Exactly which bytes are read as which value: those that begin with that value written in full.
      All others throw. */
  lemma DecodeExactly(bs: seq<byte>, t: Schema, v: Value, rest: seq<byte>)
    ensures Decode(bs, t) == Got(v, rest) <==> BeginsWith(bs, t, v, rest)
  {
    if Decode(bs, t) == Got(v, rest) {
      match t
      case TOne(st) => ScalarInverse(bs, st);
      case TStr => StrInverse(bs);
      case TVec(_) => VecInverse(bs, t);
      case TTable(_, _) => TableInverse(bs, t);
    }
    if BeginsWith(bs, t, v, rest) {
      if t.TTable? {
        var ps :| TableBytes(bs, t.keyWidth, t.valueWidth, ps, v, rest);
        TableAgain(bs, t, ps, v, rest);
      } else {
        RoundTrip(v, t, rest);
      }
    }
  }

  lemma ThrowsExactly(bs: seq<byte>, t: Schema)
    ensures Decode(bs, t) == Thrown <==> forall v, rest :: !BeginsWith(bs, t, v, rest)
  {
    match Decode(bs, t)
    case Got(v, rest) => DecodeExactly(bs, t, v, rest);
    case Thrown =>
      forall v, rest ensures !BeginsWith(bs, t, v, rest) { DecodeExactly(bs, t, v, rest); }
  }

  lemma TableMore(bs: seq<byte>, kw: nat, vw: nat, ps: seq<Pair>, v: Value, rest: seq<byte>, more: seq<byte>)
    requires TableBytes(bs, kw, vw, ps, v, rest)
    ensures TableBytes(bs + more, kw, vw, ps, v, rest + more)
  {
    Regroup2(EncodeUInt(|ps|, 4) + EncodeScalars(Flat(ps, kw, vw)), rest, more);
  }

  lemma BeginsMore(bs: seq<byte>, t: Schema, v: Value, rest: seq<byte>, more: seq<byte>)
    requires BeginsWith(bs, t, v, rest)
    ensures BeginsWith(bs + more, t, v, rest + more)
  {
    if t.TTable? {
      var ps :| TableBytes(bs, t.keyWidth, t.valueWidth, ps, v, rest);
      TableMore(bs, t.keyWidth, t.valueWidth, ps, v, rest, more);
    } else {
      Regroup2(Encode(v), rest, more);
    }
  }

  /** What is read does not depend on what comes after. */
  lemma Extends(bs: seq<byte>, t: Schema, v: Value, rest: seq<byte>, more: seq<byte>)
    requires Decode(bs, t) == Got(v, rest)
    ensures Decode(bs + more, t) == Got(v, rest + more)
  {
    DecodeExactly(bs, t, v, rest);
    BeginsMore(bs, t, v, rest, more);
    DecodeExactly(bs + more, t, v, rest + more);
  }

  lemma {:induction false} ExtendsAll(bs: seq<byte>, ts: seq<Schema>, vs: seq<Value>, rest: seq<byte>, more: seq<byte>)
    requires DecodeAll(bs, ts) == Got(vs, rest)
    ensures DecodeAll(bs + more, ts) == Got(vs, rest + more)
    decreases |ts|
  {
    if ts != [] {
      var first := Decode(bs, ts[0]);
      Extends(bs, ts[0], first.value, first.rest, more);
      ExtendsAll(first.rest, ts[1..], vs[1..], rest, more);
    }
  }

  /** A value cut short anywhere is not read as another one: the read throws. */
  lemma CutThrows(v: Value, t: Schema, k: nat)
    requires Fits(v, t) && k < |Encode(v)|
    ensures Decode(Encode(v)[..k], t) == Thrown
  {
    var bs := Encode(v);
    RoundTrip(v, t, []);
    assert bs[..k] + bs[k..] == bs == bs + [];
    match Decode(bs[..k], t)
    case Got(v', rest) => Extends(bs[..k], t, v', rest, bs[k..]);
    case Thrown =>
  }

  lemma CutAllThrows(vs: seq<Value>, ts: seq<Schema>, k: nat)
    requires |vs| == |ts| && forall i | 0 <= i < |vs| :: Fits(vs[i], ts[i])
    requires k < |EncodeAll(vs)|
    ensures DecodeAll(EncodeAll(vs)[..k], ts) == Thrown
  {
    var bs := EncodeAll(vs);
    RoundTripAll(vs, ts, []);
    assert bs[..k] + bs[k..] == bs == bs + [];
    match DecodeAll(bs[..k], ts)
    case Got(vs', rest) => ExtendsAll(bs[..k], ts, vs', rest, bs[k..]);
    case Thrown =>
  }

  // ------------------------------------------------------------------ layout

  lemma {:induction false} EncodeConcat(a: seq<Scalar>, b: seq<Scalar>)
    ensures EncodeScalars(a + b) == EncodeScalars(a) + EncodeScalars(b)
  {
    if a == [] {
      assert a + b == b;
    } else {
      assert a + b == [a[0]] + (a[1..] + b) && a == [a[0]] + a[1..];
      EncodeCons(a[0], a[1..] + b);
      EncodeConcat(a[1..], b);
      Regroup2(EncodeScalar(a[0]), EncodeScalars(a[1..]), EncodeScalars(b));
    }
  }

  lemma {:induction false} EncodedSize(q: seq<Scalar>, t: ScalarType)
    requires forall j | 0 <= j < |q| :: FitsScalar(q[j], t)
    ensures |EncodeScalars(q)| == SizeOf(t) * |q|
  {
    if q != [] {
      EncodedSize(q[1..], t);
      assert SizeOf(t) * |q| == SizeOf(t) + SizeOf(t) * (|q| - 1);
    }
  }

  /** In a vector the items stand one after the other behind the count. */
  lemma ItemAt(q: seq<Scalar>, t: ScalarType, i: nat)
    requires i < |q| && forall j | 0 <= j < |q| :: FitsScalar(q[j], t)
    ensures EncodeScalars(q) == EncodeScalars(q[..i]) + EncodeScalar(q[i]) + EncodeScalars(q[i + 1..])
    ensures |EncodeScalars(q[..i])| == SizeOf(t) * i
  {
    assert q == q[..i] + ([q[i]] + q[i + 1..]);
    EncodeConcat(q[..i], [q[i]] + q[i + 1..]);
    EncodeCons(q[i], q[i + 1..]);
    Regroup2(EncodeScalars(q[..i]), EncodeScalar(q[i]), EncodeScalars(q[i + 1..]));
    EncodedSize(q[..i], t);
  }

  lemma {:induction false} PairsConcat(a: seq<Pair>, b: seq<Pair>, kw: nat, vw: nat)
    ensures EncodeScalars(Flat(a + b, kw, vw)) == EncodeScalars(Flat(a, kw, vw)) + EncodeScalars(Flat(b, kw, vw))
  {
    if a == [] {
      assert a + b == b;
    } else {
      PairsConcat(a[1..], b, kw, vw);
      assert (a + b)[1..] == a[1..] + b;
      PairsCons(a + b, kw, vw);
      PairsCons(a, kw, vw);
      Regroup2(PairBytes(a[0], kw, vw), EncodeScalars(Flat(a[1..], kw, vw)), EncodeScalars(Flat(b, kw, vw)));
    }
  }

  function PairBytes(p: Pair, kw: nat, vw: nat): seq<byte> {
    EncodeUInt(p.key, kw) + EncodeUInt(p.val, vw)
  }

  lemma PairsCons(ps: seq<Pair>, kw: nat, vw: nat)
    requires ps != []
    ensures EncodeScalars(Flat(ps, kw, vw)) == PairBytes(ps[0], kw, vw) + EncodeScalars(Flat(ps[1..], kw, vw))
  {
    var k, v, later := UInt(kw, ps[0].key), UInt(vw, ps[0].val), Flat(ps[1..], kw, vw);
    assert Flat(ps, kw, vw) == [k] + ([v] + later);
    EncodeCons(k, [v] + later);
    EncodeCons(v, later);
    Regroup2(EncodeScalar(k), EncodeScalar(v), EncodeScalars(later));
  }

  lemma {:induction false} PairsSize(ps: seq<Pair>, kw: nat, vw: nat)
    ensures |EncodeScalars(Flat(ps, kw, vw))| == (kw + vw) * |ps|
  {
    if ps != [] {
      PairsCons(ps, kw, vw);
      PairsSize(ps[1..], kw, vw);
      assert (kw + vw) * |ps| == kw + vw + (kw + vw) * (|ps| - 1);
    }
  }

  /** In a map the pairs stand one after the other, each with its key first. */
  lemma PairAt(ps: seq<Pair>, kw: nat, vw: nat, i: nat)
    requires i < |ps|
    ensures EncodeScalars(Flat(ps, kw, vw)) ==
              EncodeScalars(Flat(ps[..i], kw, vw)) + (EncodeUInt(ps[i].key, kw) + EncodeUInt(ps[i].val, vw))
              + EncodeScalars(Flat(ps[i + 1..], kw, vw))
    ensures |EncodeScalars(Flat(ps[..i], kw, vw))| == (kw + vw) * i
  {
    var rest := ps[i..];
    assert ps == ps[..i] + rest && rest[1..] == ps[i + 1..];
    PairsConcat(ps[..i], rest, kw, vw);
    PairsCons(rest, kw, vw);
    Regroup2(EncodeScalars(Flat(ps[..i], kw, vw)), PairBytes(ps[i], kw, vw), EncodeScalars(Flat(ps[i + 1..], kw, vw)));
    PairsSize(ps[..i], kw, vw);
  }
}
