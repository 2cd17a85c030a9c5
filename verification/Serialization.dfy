/** The wire format of nested scalars, strings, pairs of scalars, sequences, sets and maps. */
module Serialization {

  type byte = x: int | 0 <= x < 256

  /** The serializable types.  `Seq` is std::vector and std::deque. */
  datatype Type = Scalar(width: nat) | Str | Pair(first: nat, second: nat) | Seq(elem: Type) | Set(elem: Type)
                | Map(key: Type, value: Type)

  /** Scalars are unsigned numbers; sets and maps list their elements in iteration order. */
  datatype Value =
    | ScalarValue(n: nat) | StrValue(s: seq<byte>) | PairValue(a: nat, b: nat)
    | SeqValue(elems: seq<Value>) | SetValue(elems: seq<Value>) | MapValue(keys: seq<Value>, values: seq<Value>)

  /** The order of the keys of sets and maps. */
  type Order = (Value, Value) -> bool

  datatype Option<T> = None | Some(value: T)

  /** A decoded value, or several, with the count that deserialize returns for them. */
  datatype Decoded = Decoded(v: Value, count: nat)

  datatype Items = Items(vs: seq<Value>, count: nat)

  // ----- scalars: the bytes of a number, least significant first -----

  const WORD_WIDTH := 8

  function Range(width: nat): (n: nat)
    ensures 0 < n
  {
    if width == 0 then 1 else 256 * Range(width - 1)
  }

  /** Bytes beyond the width are lost. */
  function Encode(n: nat, width: nat): (s: seq<byte>)
    ensures |s| == width
    decreases width, n
  {
    if width == 0 then [] else [n % 256] + Encode(n / 256, width - 1)
  }

  function Decode(s: seq<byte>): nat {
    if s == [] then 0 else s[0] + 256 * Decode(s[1..])
  }

  lemma {:induction false} DecodeEncode(n: nat, width: nat)
    requires n < Range(width)
    ensures Decode(Encode(n, width)) == n
    decreases width
  {
    if width == 0 {
    } else {
      DecodeEncode(n / 256, width - 1);
    }
  }

  lemma {:induction false} DecodeBound(s: seq<byte>)
    ensures Decode(s) < Range(|s|)
  {
    if s == [] {
    } else {
      DecodeBound(s[1..]);
    }
  }

  // ----- well-typed values -----

  ghost predicate Sorted(less: Order, keys: seq<Value>) {
    forall i, j :: 0 <= i < j < |keys| ==> less(keys[i], keys[j])
  }

  ghost predicate WellTyped(less: Order, t: Type, v: Value)
    decreases t, 0
  {
    match t
    case Scalar(w) => v.ScalarValue? && v.n < Range(w)
    case Str => v.StrValue? && |v.s| < Range(WORD_WIDTH)
    case Pair(u, w) => v.PairValue? && v.a < Range(u) && v.b < Range(w)
    case Seq(e) => v.SeqValue? && |v.elems| < Range(WORD_WIDTH) && AllTyped(less, e, v.elems)
    case Set(e) => v.SetValue? && |v.elems| < Range(WORD_WIDTH) && AllTyped(less, e, v.elems) && Sorted(less, v.elems)
    case Map(k, e) =>
      && v.MapValue? && |v.keys| == |v.values| < Range(WORD_WIDTH)
      && AllTyped(less, k, v.keys) && AllTyped(less, e, v.values) && Sorted(less, v.keys)
  }

  ghost predicate AllTyped(less: Order, t: Type, vs: seq<Value>)
    decreases t, 1
  {
    forall i :: 0 <= i < |vs| ==> WellTyped(less, t, vs[i])
  }

  // ----- size and serialize -----

  function Total(sizes: seq<nat>): nat {
    if sizes == [] then 0 else sizes[0] + Total(sizes[1..])
  }

  function Concat(parts: seq<seq<byte>>): seq<byte> {
    if parts == [] then [] else parts[0] + Concat(parts[1..])
  }

  lemma {:induction false} ConcatLength(parts: seq<seq<byte>>, sizes: seq<nat>)
    requires |parts| == |sizes| && forall i :: 0 <= i < |parts| ==> |parts[i]| == sizes[i]
    ensures |Concat(parts)| == Total(sizes)
  {
    if parts == [] {
    } else {
      ConcatLength(parts[1..], sizes[1..]);
    }
  }

  /** The size of a pair is the size of its members in memory, which for scalars is their width. */
  function Size(t: Type, v: Value): nat
    decreases t
  {
    match t
    case Scalar(w) => w
    case Str => WORD_WIDTH + if v.StrValue? then |v.s| else 0
    case Pair(u, w) => u + w
    case Seq(e) =>
      WORD_WIDTH
      + if v.SeqValue? then Total(seq(|v.elems|, i requires 0 <= i < |v.elems| => Size(e, v.elems[i]))) else 0
    case Set(e) =>
      WORD_WIDTH
      + if v.SetValue? then Total(seq(|v.elems|, i requires 0 <= i < |v.elems| => Size(e, v.elems[i]))) else 0
    case Map(k, e) =>
      WORD_WIDTH + if v.MapValue? && |v.keys| == |v.values| then
        Total(seq(|v.keys|, i requires 0 <= i < |v.keys| => Size(k, v.keys[i]) + Size(e, v.values[i]))) else 0
  }

  function Serialize(t: Type, v: Value): seq<byte>
    decreases t, 1
  {
    match t
    case Scalar(w) => if v.ScalarValue? then Encode(v.n, w) else []
    case Str => if v.StrValue? then Encode(|v.s|, WORD_WIDTH) + v.s else []
    case Pair(u, w) => if v.PairValue? then Encode(v.a, u) + Encode(v.b, w) else []
    case Seq(e) => if v.SeqValue? then Encode(|v.elems|, WORD_WIDTH) + Concat(Parts(e, v.elems)) else []
    case Set(e) => if v.SetValue? then Encode(|v.elems|, WORD_WIDTH) + Concat(Parts(e, v.elems)) else []
    case Map(k, e) =>
      if v.MapValue? && |v.keys| == |v.values| then
        Encode(|v.keys|, WORD_WIDTH) + Concat(EntryParts(k, e, v.keys, v.values)) else []
  }

  function Parts(t: Type, vs: seq<Value>): seq<seq<byte>>
    decreases t, 2
  {
    seq(|vs|, i requires 0 <= i < |vs| => Serialize(t, vs[i]))
  }

  function EntryParts(k: Type, e: Type, keys: seq<Value>, values: seq<Value>): seq<seq<byte>>
    requires |keys| == |values|
    decreases Map(k, e), 0
  {
    seq(|keys|, i requires 0 <= i < |keys| => Serialize(k, keys[i]) + Serialize(e, values[i]))
  }

  // ----- deserialize -----

  /** The first `n` bytes of a buffer, if there are so many. */
  function Read(b: seq<byte>, n: nat): Option<seq<byte>> {
    if n <= |b| then Some(b[..n]) else None
  }

  /** set.insert: an element that is not new is dropped. */
  function Insert(less: Order, keys: seq<Value>, x: Value): seq<Value> {
    if keys == [] then [x]
    else if less(keys[0], x) then [keys[0]] + Insert(less, keys[1..], x)
    else if less(x, keys[0]) then [x] + keys
    else keys
  }

  /** Where map.insert puts a key, or |keys| + 1 if it is not new. */
  function Position(less: Order, keys: seq<Value>, x: Value): (i: nat)
    ensures i <= |keys| + 1
  {
    if keys == [] then 0
    else if less(keys[0], x) then 1 + Position(less, keys[1..], x)
    else if less(x, keys[0]) then 0
    else |keys| + 1
  }

  function InsertEntry(less: Order, m: Value, k: Value, x: Value): (r: Value)
    requires m.MapValue?
    ensures r.MapValue?
  {
    var i := Position(less, m.keys, k);
    if i <= |m.keys| && i <= |m.values| then
      MapValue(m.keys[..i] + [k] + m.keys[i..], m.values[..i] + [x] + m.values[i..])
    else m
  }

  function InsertAll(less: Order, keys: seq<Value>, xs: seq<Value>): seq<Value>
    decreases |xs|
  {
    if xs == [] then keys else InsertAll(less, Insert(less, keys, xs[0]), xs[1..])
  }

  function InsertEntries(less: Order, m: Value, ks: seq<Value>, xs: seq<Value>): Value
    requires m.MapValue? && |ks| == |xs|
    decreases |ks|
  {
    if ks == [] then m else InsertEntries(less, InsertEntry(less, m, ks[0], xs[0]), ks[1..], xs[1..])
  }

  /** Decodes `n` items one after the other. */
  function DecodeItems(dec: seq<byte> -> Option<Decoded>, b: seq<byte>, n: nat): Option<Items> {
    if n == 0 then Some(Items([], 0))
    else
      var d := dec(b);
      if d.None? || d.value.count > |b| then None
      else
        var rest := DecodeItems(dec, b[d.value.count..], n - 1);
        if rest.None? then None else Some(Items([d.value.v] + rest.value.vs, d.value.count + rest.value.count))
  }

  /** Decodes a key and its value as one item, a pair of values. */
  function DecodeEntry(key: seq<byte> -> Option<Decoded>, elem: seq<byte> -> Option<Decoded>,
                       b: seq<byte>): Option<Decoded> {
    var k := key(b);
    if k.None? || k.value.count > |b| then None
    else
      var e := elem(b[k.value.count..]);
      if e.None? then None else Some(Decoded(SeqValue([k.value.v, e.value.v]), k.value.count + e.value.count))
  }

  function Keys(entries: seq<Value>): seq<Value> {
    seq(|entries|, i requires 0 <= i < |entries| =>
      if entries[i].SeqValue? && |entries[i].elems| == 2 then entries[i].elems[0] else entries[i])
  }

  function Values(entries: seq<Value>): seq<Value> {
    seq(|entries|, i requires 0 <= i < |entries| =>
      if entries[i].SeqValue? && |entries[i].elems| == 2 then entries[i].elems[1] else entries[i])
  }

  /** The decoder of a type, and of the entries of a map. */
  function Decoder(less: Order, t: Type): seq<byte> -> Option<Decoded>
    decreases t, 3
  {
    x => Deserialize(less, t, x)
  }

  function EntryDecoder(less: Order, k: Type, e: Type): seq<byte> -> Option<Decoded>
    decreases Map(k, e), 1
  {
    x => DecodeEntry(Decoder(less, k), Decoder(less, e), x)
  }

  /** None if the bytes run out. */
  function Deserialize(less: Order, t: Type, b: seq<byte>): Option<Decoded>
    decreases t, 2
  {
    match t
    case Scalar(w) =>
      var d := Read(b, w);
      if d.None? then None else Some(Decoded(ScalarValue(Decode(d.value)), w))
    case Str =>
      var length := Read(b, WORD_WIDTH);
      if length.None? then None
      else
        var s := Read(b[WORD_WIDTH..], Decode(length.value));
        if s.None? then None else Some(Decoded(StrValue(s.value), WORD_WIDTH + |s.value|))
    case Pair(u, w) =>
      var d := Read(b, u + w);
      if d.None? then None else Some(Decoded(PairValue(Decode(d.value[..u]), Decode(d.value[u..])), u + w))
    case Seq(e) =>
      var length := Read(b, WORD_WIDTH);
      if length.None? then None
      else
        var d := DecodeItems(Decoder(less, e), b[WORD_WIDTH..], Decode(length.value));
        if d.None? then None else Some(Decoded(SeqValue(d.value.vs), Size(t, SeqValue(d.value.vs))))
    case Set(e) =>
      var length := Read(b, WORD_WIDTH);
      if length.None? then None
      else
        var d := DecodeItems(Decoder(less, e), b[WORD_WIDTH..], Decode(length.value));
        if d.None? then None
        else
          var v := SetValue(InsertAll(less, [], d.value.vs));
          Some(Decoded(v, Size(t, v)))
    case Map(k, e) =>
      var length := Read(b, WORD_WIDTH);
      if length.None? then None
      else
        var d := DecodeItems(EntryDecoder(less, k, e), b[WORD_WIDTH..], Decode(length.value));
        if d.None? then None
        else
          Some(Decoded(InsertEntries(less, MapValue([], []), Keys(d.value.vs), Values(d.value.vs)),
                       WORD_WIDTH + d.value.count))
  }

  // ----- the round trip -----

  /** Inserting sorted keys one after the other lists them in the same order. */
  lemma {:induction false} InsertLargest(less: Order, keys: seq<Value>, x: Value)
    requires forall i :: 0 <= i < |keys| ==> less(keys[i], x)
    ensures Insert(less, keys, x) == keys + [x] && Position(less, keys, x) == |keys|
  {
    if keys == [] {
    } else {
      InsertLargest(less, keys[1..], x);
    }
  }

  lemma {:induction false} InsertAllSorted(less: Order, keys: seq<Value>, xs: seq<Value>)
    requires Sorted(less, keys + xs)
    ensures InsertAll(less, keys, xs) == keys + xs
    decreases |xs|
  {
    if xs != [] {
      assert forall i :: 0 <= i < |keys| ==> (keys + xs)[i] == keys[i] && (keys + xs)[|keys|] == xs[0];
      InsertLargest(less, keys, xs[0]);
      assert keys + [xs[0]] + xs[1..] == keys + xs;
      InsertAllSorted(less, keys + [xs[0]], xs[1..]);
    } else {
      assert keys + xs == keys;
    }
  }

  lemma InsertLargestEntry(less: Order, m: Value, k: Value, x: Value)
    requires m.MapValue? && |m.keys| == |m.values| && forall i :: 0 <= i < |m.keys| ==> less(m.keys[i], k)
    ensures InsertEntry(less, m, k, x) == MapValue(m.keys + [k], m.values + [x])
  {
    InsertLargest(less, m.keys, k);
    assert m.keys[..|m.keys|] == m.keys && m.values[..|m.values|] == m.values;
    assert m.keys + [k] + [] == m.keys + [k] && m.values + [x] + [] == m.values + [x];
  }

  lemma {:induction false} InsertEntriesSorted(less: Order, m: Value, ks: seq<Value>, xs: seq<Value>)
    requires m.MapValue? && |m.keys| == |m.values| && |ks| == |xs| && Sorted(less, m.keys + ks)
    ensures InsertEntries(less, m, ks, xs) == MapValue(m.keys + ks, m.values + xs)
    decreases |ks|
  {
    if ks != [] {
      assert forall i :: 0 <= i < |m.keys| ==> (m.keys + ks)[i] == m.keys[i] && (m.keys + ks)[|m.keys|] == ks[0];
      InsertLargestEntry(less, m, ks[0], xs[0]);
      assert m.keys + [ks[0]] + ks[1..] == m.keys + ks && m.values + [xs[0]] + xs[1..] == m.values + xs;
      InsertEntriesSorted(less, MapValue(m.keys + [ks[0]], m.values + [xs[0]]), ks[1..], xs[1..]);
    } else {
      assert m.keys + ks == m.keys && m.values + xs == m.values;
    }
  }

  lemma LengthPrefix(n: nat, body: seq<byte>, rest: seq<byte>)
    requires n < Range(WORD_WIDTH)
    ensures var b := Encode(n, WORD_WIDTH) + body + rest;
            Read(b, WORD_WIDTH) == Some(Encode(n, WORD_WIDTH)) && b[WORD_WIDTH..] == body + rest
            && Decode(Encode(n, WORD_WIDTH)) == n
  {
    DecodeEncode(n, WORD_WIDTH);
    var b := Encode(n, WORD_WIDTH) + body + rest;
    assert b[..WORD_WIDTH] == Encode(n, WORD_WIDTH);
  }

  /** `dec` recovers `v` from `part`, whatever follows. */
  ghost predicate Recovers(dec: seq<byte> -> Option<Decoded>, part: seq<byte>, v: Value) {
    forall rest {:trigger part + rest} :: dec(part + rest) == Some(Decoded(v, |part|))
  }

  lemma {:induction false} ItemsRecovered(dec: seq<byte> -> Option<Decoded>, parts: seq<seq<byte>>, vs: seq<Value>,
                                          rest: seq<byte>)
    requires |parts| == |vs| && forall i :: 0 <= i < |parts| ==> Recovers(dec, parts[i], vs[i])
    ensures DecodeItems(dec, Concat(parts) + rest, |vs|) == Some(Items(vs, |Concat(parts)|))
    decreases |vs|
  {
    if vs == [] {
    } else {
      var tail := Concat(parts[1..]);
      assert Concat(parts) + rest == parts[0] + (tail + rest);
      assert Recovers(dec, parts[0], vs[0]);
      assert (parts[0] + (tail + rest))[|parts[0]|..] == tail + rest;
      ItemsRecovered(dec, parts[1..], vs[1..], rest);
      assert [vs[0]] + vs[1..] == vs;
    }
  }

  lemma EntryRecovered(key: seq<byte> -> Option<Decoded>, elem: seq<byte> -> Option<Decoded>,
                       kp: seq<byte>, k: Value, ep: seq<byte>, e: Value)
    requires Recovers(key, kp, k) && Recovers(elem, ep, e)
    ensures forall rest {:trigger kp + ep + rest} ::
              DecodeEntry(key, elem, kp + ep + rest) == Some(Decoded(SeqValue([k, e]), |kp + ep|))
  {
    forall rest ensures DecodeEntry(key, elem, kp + ep + rest) == Some(Decoded(SeqValue([k, e]), |kp + ep|)) {
      assert kp + ep + rest == kp + (ep + rest);
      assert (kp + (ep + rest))[|kp|..] == ep + rest;
    }
  }

  /** Deserializing what was serialized, whatever bytes follow, yields the value and returns exactly
      the number of bytes written, which is the size announced. */
  lemma {:induction false} RoundTrip(less: Order, t: Type, v: Value, rest: seq<byte>)
    requires WellTyped(less, t, v)
    ensures |Serialize(t, v)| == Size(t, v)
    ensures Deserialize(less, t, Serialize(t, v) + rest) == Some(Decoded(v, Size(t, v)))
    decreases t, 3
  {
    match t {
      case Scalar(w) => RoundTripScalar(less, w, v, rest);
      case Str => RoundTripStr(less, v, rest);
      case Pair(u, w) => RoundTripPair(less, u, w, v, rest);
      case Seq(e) => RoundTripSeq(less, e, v, rest);
      case Set(e) => RoundTripSet(less, e, v, rest);
      case Map(k, e) => RoundTripMap(less, k, e, v, rest);
    }
  }

  lemma RoundTripScalar(less: Order, w: nat, v: Value, rest: seq<byte>)
    requires WellTyped(less, Scalar(w), v)
    ensures |Serialize(Scalar(w), v)| == w
    ensures Deserialize(less, Scalar(w), Serialize(Scalar(w), v) + rest) == Some(Decoded(v, w))
  {
    DecodeEncode(v.n, w);
    assert (Encode(v.n, w) + rest)[..w] == Encode(v.n, w);
  }

  lemma RoundTripStr(less: Order, v: Value, rest: seq<byte>)
    requires WellTyped(less, Str, v)
    ensures |Serialize(Str, v)| == Size(Str, v)
    ensures Deserialize(less, Str, Serialize(Str, v) + rest) == Some(Decoded(v, Size(Str, v)))
  {
    LengthPrefix(|v.s|, v.s, rest);
    assert (v.s + rest)[..|v.s|] == v.s;
  }

  lemma RoundTripPair(less: Order, u: nat, w: nat, v: Value, rest: seq<byte>)
    requires WellTyped(less, Pair(u, w), v)
    ensures |Serialize(Pair(u, w), v)| == u + w
    ensures Deserialize(less, Pair(u, w), Serialize(Pair(u, w), v) + rest) == Some(Decoded(v, u + w))
  {
    DecodeEncode(v.a, u);
    DecodeEncode(v.b, w);
    var s := Encode(v.a, u) + Encode(v.b, w);
    assert (s + rest)[..u + w] == s && s[..u] == Encode(v.a, u) && s[u..] == Encode(v.b, w);
  }

  /** The elements of a sequence or set, by induction on their type. */
  lemma {:induction false} ElementsRecovered(less: Order, e: Type, vs: seq<Value>, rest: seq<byte>)
    requires AllTyped(less, e, vs)
    ensures |Concat(Parts(e, vs))| == Total(seq(|vs|, i requires 0 <= i < |vs| => Size(e, vs[i])))
    ensures DecodeItems(Decoder(less, e), Concat(Parts(e, vs)) + rest, |vs|)
            == Some(Items(vs, |Concat(Parts(e, vs))|))
    decreases e, 4
  {
    var parts, dec := Parts(e, vs), Decoder(less, e);
    forall i | 0 <= i < |vs| ensures |parts[i]| == Size(e, vs[i]) && Recovers(dec, parts[i], vs[i]) {
      forall after ensures |parts[i]| == Size(e, vs[i]) && dec(parts[i] + after) == Some(Decoded(vs[i], |parts[i]|)) {
        RoundTrip(less, e, vs[i], after);
      }
      assert |parts[i]| == Size(e, vs[i]) by { RoundTrip(less, e, vs[i], []); }
    }
    ConcatLength(parts, seq(|vs|, i requires 0 <= i < |vs| => Size(e, vs[i])));
    ItemsRecovered(dec, parts, vs, rest);
  }

  lemma {:induction false} RoundTripSeq(less: Order, e: Type, v: Value, rest: seq<byte>)
    requires WellTyped(less, Seq(e), v)
    ensures |Serialize(Seq(e), v)| == Size(Seq(e), v)
    ensures Deserialize(less, Seq(e), Serialize(Seq(e), v) + rest) == Some(Decoded(v, Size(Seq(e), v)))
    decreases e, 5
  {
    LengthPrefix(|v.elems|, Concat(Parts(e, v.elems)), rest);
    ElementsRecovered(less, e, v.elems, rest);
  }

  lemma {:induction false} RoundTripSet(less: Order, e: Type, v: Value, rest: seq<byte>)
    requires WellTyped(less, Set(e), v)
    ensures |Serialize(Set(e), v)| == Size(Set(e), v)
    ensures Deserialize(less, Set(e), Serialize(Set(e), v) + rest) == Some(Decoded(v, Size(Set(e), v)))
    decreases e, 5
  {
    LengthPrefix(|v.elems|, Concat(Parts(e, v.elems)), rest);
    ElementsRecovered(less, e, v.elems, rest);
    assert [] + v.elems == v.elems;
    InsertAllSorted(less, [], v.elems);
  }

  lemma {:induction false} OneEntryRecovered(less: Order, k: Type, e: Type, key: Value, value: Value)
    requires WellTyped(less, k, key) && WellTyped(less, e, value)
    ensures |Serialize(k, key) + Serialize(e, value)| == Size(k, key) + Size(e, value)
    ensures Recovers(EntryDecoder(less, k, e), Serialize(k, key) + Serialize(e, value), SeqValue([key, value]))
    decreases Map(k, e), 0, 0
  {
    var dk, de := Decoder(less, k), Decoder(less, e);
    forall after ensures dk(Serialize(k, key) + after) == Some(Decoded(key, |Serialize(k, key)|)) {
      RoundTrip(less, k, key, after);
    }
    forall after ensures de(Serialize(e, value) + after) == Some(Decoded(value, |Serialize(e, value)|)) {
      RoundTrip(less, e, value, after);
    }
    RoundTrip(less, k, key, []);
    RoundTrip(less, e, value, []);
    EntryRecovered(dk, de, Serialize(k, key), key, Serialize(e, value), value);
  }

  lemma {:induction false} EntriesRecovered(less: Order, k: Type, e: Type, keys: seq<Value>, values: seq<Value>,
                                            rest: seq<byte>)
    requires |keys| == |values| && AllTyped(less, k, keys) && AllTyped(less, e, values)
    ensures var parts := EntryParts(k, e, keys, values);
            && |Concat(parts)|
               == Total(seq(|keys|, i requires 0 <= i < |keys| => Size(k, keys[i]) + Size(e, values[i])))
            && DecodeItems(EntryDecoder(less, k, e), Concat(parts) + rest, |keys|)
               == Some(Items(seq(|keys|, i requires 0 <= i < |keys| => SeqValue([keys[i], values[i]])),
                             |Concat(parts)|))
    decreases Map(k, e), 1
  {
    var parts := EntryParts(k, e, keys, values);
    var dec := EntryDecoder(less, k, e);
    var entries := seq(|keys|, i requires 0 <= i < |keys| => SeqValue([keys[i], values[i]]));
    forall i | 0 <= i < |keys|
      ensures |parts[i]| == Size(k, keys[i]) + Size(e, values[i]) && Recovers(dec, parts[i], entries[i])
    {
      OneEntryRecovered(less, k, e, keys[i], values[i]);
    }
    ConcatLength(parts, seq(|keys|, i requires 0 <= i < |keys| => Size(k, keys[i]) + Size(e, values[i])));
    ItemsRecovered(dec, parts, entries, rest);
  }

  lemma MapRebuilt(less: Order, keys: seq<Value>, values: seq<Value>, entries: seq<Value>)
    requires |keys| == |values| == |entries| && Sorted(less, keys)
    requires forall i :: 0 <= i < |entries| ==> entries[i] == SeqValue([keys[i], values[i]])
    ensures InsertEntries(less, MapValue([], []), Keys(entries), Values(entries)) == MapValue(keys, values)
  {
    assert Keys(entries) == keys && Values(entries) == values;
    assert [] + keys == keys && [] + values == values;
    InsertEntriesSorted(less, MapValue([], []), keys, values);
  }

  /** What a map decodes to, from what its entries decode to. */
  lemma MapFromItems(less: Order, k: Type, e: Type, b: seq<byte>, n: nat, items: Items, v: Value)
    requires WORD_WIDTH <= |b| && Decode(b[..WORD_WIDTH]) == n
    requires DecodeItems(EntryDecoder(less, k, e), b[WORD_WIDTH..], n) == Some(items)
    requires InsertEntries(less, MapValue([], []), Keys(items.vs), Values(items.vs)) == v
    ensures Deserialize(less, Map(k, e), b) == Some(Decoded(v, WORD_WIDTH + items.count))
  {}

  lemma {:induction false} RoundTripMap(less: Order, k: Type, e: Type, v: Value, rest: seq<byte>)
    requires WellTyped(less, Map(k, e), v)
    ensures |Serialize(Map(k, e), v)| == Size(Map(k, e), v)
    ensures Deserialize(less, Map(k, e), Serialize(Map(k, e), v) + rest) == Some(Decoded(v, Size(Map(k, e), v)))
    decreases Map(k, e), 2
  {
    EntriesRecovered(less, k, e, v.keys, v.values, rest);
    var parts := EntryParts(k, e, v.keys, v.values);
    var entries := seq(|v.keys|, i requires 0 <= i < |v.keys| => SeqValue([v.keys[i], v.values[i]]));
    MapRoundTrip(less, k, e, v, Concat(parts), entries, rest);
  }

  lemma MapRoundTrip(less: Order, k: Type, e: Type, v: Value, body: seq<byte>, entries: seq<Value>, rest: seq<byte>)
    requires v.MapValue? && |v.keys| == |v.values| == |entries| < Range(WORD_WIDTH) && Sorted(less, v.keys)
    requires forall i :: 0 <= i < |entries| ==> entries[i] == SeqValue([v.keys[i], v.values[i]])
    requires DecodeItems(EntryDecoder(less, k, e), body + rest, |v.keys|) == Some(Items(entries, |body|))
    ensures Deserialize(less, Map(k, e), Encode(|v.keys|, WORD_WIDTH) + body + rest)
            == Some(Decoded(v, WORD_WIDTH + |body|))
  {
    LengthPrefix(|v.keys|, body, rest);
    MapRebuilt(less, v.keys, v.values, entries);
    MapFromItems(less, k, e, Encode(|v.keys|, WORD_WIDTH) + body + rest, |v.keys|, Items(entries, |body|), v);
  }
}
