/** Serializing into and out of a buffer: the loops that advance a cursor, and the description of a
    buffer, which is five scalars in a row. */
module Serializer {
  import opened Serialization
  import opened Descriptions

  // ----- writing -----

  /** `after` is `before` with `s` written at `at`. */
  ghost predicate Written(before: seq<byte>, after: seq<byte>, at: nat, s: seq<byte>) {
    at + |s| <= |before| && after == before[..at] + s + before[at + |s|..]
  }

  lemma WrittenTwice(b0: seq<byte>, b1: seq<byte>, b2: seq<byte>, at: nat, s: seq<byte>, s': seq<byte>)
    requires Written(b0, b1, at, s) && Written(b1, b2, at + |s|, s')
    ensures Written(b0, b2, at, s + s')
  {
    var end := at + |s + s'|;
    assert b1[..at + |s|] == b0[..at] + s && b1[end..] == b0[end..];
  }

  lemma {:induction false} ConcatAppend(parts: seq<seq<byte>>, part: seq<byte>)
    ensures Concat(parts + [part]) == Concat(parts) + part
  {
    if parts == [] {
      assert parts + [part] == [part];
      assert Concat([part]) == part + Concat([]);
    } else {
      assert (parts + [part])[1..] == parts[1..] + [part];
      ConcatAppend(parts[1..], part);
    }
  }

  /** The next part fits where the first `i` parts end. */
  lemma {:induction false} PartFits(parts: seq<seq<byte>>, i: nat)
    requires i < |parts|
    ensures Concat(parts[..i + 1]) == Concat(parts[..i]) + parts[i]
    ensures |Concat(parts[..i])| + |parts[i]| <= |Concat(parts)|
    decreases |parts| - i
  {
    assert parts[..i + 1] == parts[..i] + [parts[i]];
    ConcatAppend(parts[..i], parts[i]);
    if i + 1 < |parts| { PartFits(parts, i + 1); } else { assert parts[..i + 1] == parts; }
  }

  /** `head` and the first `i` parts have been written at `at`, and the cursor stands behind them. */
  ghost predicate WrittenUpTo(before: seq<byte>, after: seq<byte>, at: nat, head: seq<byte>, parts: seq<seq<byte>>,
                              i: nat, cursor: nat) {
    && i <= |parts| && cursor == at + |head| + |Concat(parts[..i])|
    && Written(before, after, at, head + Concat(parts[..i]))
  }

  /** Writing the next part after the first `i` of them. */
  lemma NextPart(b0: seq<byte>, b1: seq<byte>, b2: seq<byte>, at: nat, head: seq<byte>, parts: seq<seq<byte>>, i: nat,
                 cursor: nat)
    requires i < |parts| && WrittenUpTo(b0, b1, at, head, parts, i, cursor) && Written(b1, b2, cursor, parts[i])
    ensures WrittenUpTo(b0, b2, at, head, parts, i + 1, cursor + |parts[i]|)
  {
    PartFits(parts, i);
    WrittenTwice(b0, b1, b2, at, head + Concat(parts[..i]), parts[i]);
    assert head + Concat(parts[..i]) + parts[i] == head + Concat(parts[..i + 1]);
  }

  lemma NoPart(before: seq<byte>, after: seq<byte>, at: nat, head: seq<byte>, parts: seq<seq<byte>>)
    requires Written(before, after, at, head)
    ensures WrittenUpTo(before, after, at, head, parts, 0, at + |head|)
  {
    assert head + Concat(parts[..0]) == head;
  }

  lemma AllParts(before: seq<byte>, after: seq<byte>, at: nat, head: seq<byte>, parts: seq<seq<byte>>, cursor: nat)
    requires WrittenUpTo(before, after, at, head, parts, |parts|, cursor)
    ensures Written(before, after, at, head + Concat(parts))
  {
    assert parts[..|parts|] == parts;
  }

  /** memcpy into the buffer. */
  method CopyBytes(buffer: array<byte>, at: nat, s: seq<byte>)
    requires at + |s| <= buffer.Length
    modifies buffer
    ensures Written(old(buffer[..]), buffer[..], at, s)
  {
    for i := 0 to |s|
      invariant buffer[..at] == old(buffer[..at]) && buffer[at..at + i] == s[..i]
      invariant buffer[at + i..] == old(buffer[at + i..])
    {
      buffer[at + i] := s[i];
    }
    assert buffer[..] == buffer[..at] + buffer[at..at + |s|] + buffer[at + |s|..];
  }

  method SerializeValue(less: Order, buffer: array<byte>, at: nat, t: Type, v: Value) returns (written: nat)
    requires WellTyped(less, t, v) && at + Size(t, v) <= buffer.Length
    modifies buffer
    ensures written == Size(t, v) && Written(old(buffer[..]), buffer[..], at, Serialize(t, v))
    decreases t, 1
  {
    RoundTrip(less, t, v, []);
    match t {
      case Scalar(w) =>
        CopyBytes(buffer, at, Encode(v.n, w));
      case Str =>
        CopyBytes(buffer, at, Encode(|v.s|, WORD_WIDTH) + v.s);
      case Pair(u, w) =>
        CopyBytes(buffer, at, Encode(v.a, u) + Encode(v.b, w));
      case Seq(e) =>
        SerializeElements(less, buffer, at, e, v.elems, Parts(e, v.elems));
      case Set(e) =>
        SerializeElements(less, buffer, at, e, v.elems, Parts(e, v.elems));
      case Map(k, e) =>
        SerializeEntries(less, buffer, at, k, e, v.keys, v.values, EntryParts(k, e, v.keys, v.values));
    }
    written := Size(t, v);
  }

  /** Writes `v` at the cursor, and nothing else, and returns the number of bytes written. */
  method SerializeTo(less: Order, buffer: array<byte>, at: nat, t: Type, v: Value) returns (written: nat)
    requires WellTyped(less, t, v) && at + Size(t, v) <= buffer.Length
    modifies buffer
    ensures written == Size(t, v)
    ensures var before, s := old(buffer[..]), Serialize(t, v);
            at + |s| <= |before| && buffer[..] == before[..at] + s + before[at + |s|..]
  {
    written := SerializeValue(less, buffer, at, t, v);
  }

  /** Writes one element, whose bytes are `part`. */
  method SerializeElement(less: Order, buffer: array<byte>, at: nat, t: Type, v: Value, ghost part: seq<byte>)
    returns (written: nat)
    requires WellTyped(less, t, v) && part == Serialize(t, v) && at + |part| <= buffer.Length
    modifies buffer
    ensures written == |part| && Written(old(buffer[..]), buffer[..], at, part)
    decreases t, 2
  {
    RoundTrip(less, t, v, []);
    written := SerializeValue(less, buffer, at, t, v);
  }

  /** The length and then the elements, whose bytes are `parts`. */
  method SerializeElements(less: Order, buffer: array<byte>, at: nat, e: Type, vs: seq<Value>,
                           ghost parts: seq<seq<byte>>)
    requires AllTyped(less, e, vs) && parts == Parts(e, vs) && at + WORD_WIDTH + |Concat(parts)| <= buffer.Length
    modifies buffer
    ensures Written(old(buffer[..]), buffer[..], at, Encode(|vs|, WORD_WIDTH) + Concat(parts))
    decreases e, 3
  {
    ghost var before, head := buffer[..], Encode(|vs|, WORD_WIDTH);
    CopyBytes(buffer, at, Encode(|vs|, WORD_WIDTH));
    var cursor: nat := at + WORD_WIDTH;
    NoPart(before, buffer[..], at, head, parts);
    for i := 0 to |vs|
      invariant WrittenUpTo(before, buffer[..], at, head, parts, i, cursor)
    {
      PartFits(parts, i);
      ghost var middle := buffer[..];
      var written := SerializeElement(less, buffer, cursor, e, vs[i], parts[i]);
      NextPart(before, middle, buffer[..], at, head, parts, i, cursor);
      cursor := cursor + written;
    }
    AllParts(before, buffer[..], at, head, parts, cursor);
  }

  /** The length and then each key with its value, whose bytes are `parts`. */
  method SerializeEntries(less: Order, buffer: array<byte>, at: nat, k: Type, e: Type, keys: seq<Value>,
                          values: seq<Value>, ghost parts: seq<seq<byte>>)
    requires |keys| == |values| && AllTyped(less, k, keys) && AllTyped(less, e, values)
    requires parts == EntryParts(k, e, keys, values) && at + WORD_WIDTH + |Concat(parts)| <= buffer.Length
    modifies buffer
    ensures Written(old(buffer[..]), buffer[..], at, Encode(|keys|, WORD_WIDTH) + Concat(parts))
    decreases Map(k, e), 0
  {
    ghost var before, head := buffer[..], Encode(|keys|, WORD_WIDTH);
    CopyBytes(buffer, at, Encode(|keys|, WORD_WIDTH));
    var cursor: nat := at + WORD_WIDTH;
    NoPart(before, buffer[..], at, head, parts);
    for i := 0 to |keys|
      invariant WrittenUpTo(before, buffer[..], at, head, parts, i, cursor)
    {
      PartFits(parts, i);
      ghost var middle := buffer[..];
      var written := SerializeEntry(less, buffer, cursor, k, e, keys[i], values[i], parts[i]);
      NextPart(before, middle, buffer[..], at, head, parts, i, cursor);
      cursor := cursor + written;
    }
    AllParts(before, buffer[..], at, head, parts, cursor);
  }

  method SerializeEntry(less: Order, buffer: array<byte>, at: nat, k: Type, e: Type, key: Value, value: Value,
                        ghost part: seq<byte>)
    returns (written: nat)
    requires WellTyped(less, k, key) && WellTyped(less, e, value)
    requires part == Serialize(k, key) + Serialize(e, value) && at + |part| <= buffer.Length
    modifies buffer
    ensures written == |part| && Written(old(buffer[..]), buffer[..], at, part)
    decreases Map(k, e), 0, 0
  {
    ghost var before, kp, ep := buffer[..], Serialize(k, key), Serialize(e, value);
    var first := SerializeElement(less, buffer, at, k, key, kp);
    ghost var middle := buffer[..];
    var second := SerializeElement(less, buffer, at + first, e, value, ep);
    WrittenTwice(before, middle, buffer[..], at, kp, ep);
    written := first + second;
  }

  // ----- reading -----

  /** The items decoded so far, followed by the rest. */
  function Prepend(done: Items, rest: Option<Items>): Option<Items> {
    if rest.None? then None else Some(Items(done.vs + rest.value.vs, done.count + rest.value.count))
  }

  lemma PrependNothing(rest: Option<Items>)
    ensures Prepend(Items([], 0), rest) == rest
  {
    if rest.Some? { assert [] + rest.value.vs == rest.value.vs; }
  }

  /** One more item of a decoding loop. */
  lemma NextItem(dec: seq<byte> -> Option<Decoded>, done: Items, cursor: seq<byte>, n: nat, d: Option<Decoded>)
    requires 0 < n && dec(cursor) == d
    ensures d.None? || d.value.count > |cursor| ==> Prepend(done, DecodeItems(dec, cursor, n)) == None
    ensures d.Some? && d.value.count <= |cursor| ==>
              Prepend(done, DecodeItems(dec, cursor, n))
              == Prepend(Items(done.vs + [d.value.v], done.count + d.value.count),
                         DecodeItems(dec, cursor[d.value.count..], n - 1))
  {
    if d.Some? && d.value.count <= |cursor| {
      var rest := DecodeItems(dec, cursor[d.value.count..], n - 1);
      if rest.Some? { assert done.vs + ([d.value.v] + rest.value.vs) == done.vs + [d.value.v] + rest.value.vs; }
    }
  }

  /** The decoding loop of the containers: the cursor moves on by what each item returns. */
  method ReadItems(dec: seq<byte> -> Option<Decoded>, b: seq<byte>, n: nat) returns (items: Option<Items>)
    ensures items == DecodeItems(dec, b, n)
  {
    var done, cursor := Items([], 0), b;
    PrependNothing(DecodeItems(dec, b, n));
    for i := 0 to n
      invariant DecodeItems(dec, b, n) == Prepend(done, DecodeItems(dec, cursor, n - i))
    {
      var d := dec(cursor);
      NextItem(dec, done, cursor, n - i, d);
      if d.None? || d.value.count > |cursor| { return None; }
      done := Items(done.vs + [d.value.v], done.count + d.value.count);
      cursor := cursor[d.value.count..];
    }
    assert done.vs + [] == done.vs;
    items := Some(done);
  }

  /** set.clear and the inserts, in the order of arrival. */
  method InsertKeys(less: Order, xs: seq<Value>) returns (keys: seq<Value>)
    ensures keys == InsertAll(less, [], xs)
  {
    keys := [];
    for i := 0 to |xs|
      invariant InsertAll(less, [], xs) == InsertAll(less, keys, xs[i..])
    {
      assert xs[i..][1..] == xs[i + 1..];
      keys := Insert(less, keys, xs[i]);
    }
  }

  /** Reads a container at the front of `b`. */
  method ReadContainer(less: Order, t: Type, b: seq<byte>) returns (d: Option<Decoded>)
    requires t.Seq? || t.Set?
    ensures d == Deserialize(less, t, b)
  {
    var length := Read(b, WORD_WIDTH);
    if length.None? { return None; }
    var items := ReadItems(Decoder(less, t.elem), b[WORD_WIDTH..], Decode(length.value));
    if items.None? { return None; }
    if t.Seq? {
      return Some(Decoded(SeqValue(items.value.vs), Size(t, SeqValue(items.value.vs))));
    }
    var keys := InsertKeys(less, items.value.vs);
    return Some(Decoded(SetValue(keys), Size(t, SetValue(keys))));
  }

  // ----- buffer descriptions -----

  /** The widths of the five fields on the platform. */
  datatype Widths = Widths(rank: nat, segmentId: nat, offset: nat, size: nat, notificationId: nat)

  predicate Fits(w: Widths, d: BufferDescription) {
    && d.rank < Range(w.rank) && d.segmentId < Range(w.segmentId) && d.offset < Range(w.offset)
    && d.size < Range(w.size) && d.notificationId < Range(w.notificationId)
  }

  function DescriptionSize(w: Widths): nat {
    w.rank + w.segmentId + w.offset + w.size + w.notificationId
  }

  function SerializeDescription(w: Widths, d: BufferDescription): (s: seq<byte>)
    ensures |s| == DescriptionSize(w)
  {
    Encode(d.rank, w.rank) + Encode(d.segmentId, w.segmentId) + Encode(d.offset, w.offset)
    + Encode(d.size, w.size) + Encode(d.notificationId, w.notificationId)
  }

  /** The five scalars that start at `at`. */
  function DescriptionAt(w: Widths, b: seq<byte>, at: nat): BufferDescription
    requires at + DescriptionSize(w) <= |b|
  {
    var c1, c2 := at + w.rank, at + w.rank + w.segmentId;
    var c3 := c2 + w.offset;
    var c4 := c3 + w.size;
    BufferDescription(Decode(b[at..c1]), Decode(b[c1..c2]), Decode(b[c2..c3]), Decode(b[c3..c4]),
                      Decode(b[c4..c4 + w.notificationId]))
  }

  /** Reads a scalar and moves the cursor past it. */
  method ReadScalar(b: seq<byte>, cursor: nat, width: nat) returns (n: nat, next: nat)
    requires cursor + width <= |b|
    ensures n == Decode(b[cursor..cursor + width]) && next == cursor + width
  {
    n, next := Decode(b[cursor..cursor + width]), cursor + width;
  }

  /** The description at the cursor, and the number of bytes it took. */
  method DeserializeDescription(w: Widths, b: seq<byte>, at: nat) returns (d: BufferDescription, count: nat)
    requires at + DescriptionSize(w) <= |b|
    ensures d == DescriptionAt(w, b, at) && count == DescriptionSize(w)
  {
    var cursor := at;
    var rank, segment, offset, size, notification;
    rank, cursor := ReadScalar(b, cursor, w.rank);
    segment, cursor := ReadScalar(b, cursor, w.segmentId);
    offset, cursor := ReadScalar(b, cursor, w.offset);
    size, cursor := ReadScalar(b, cursor, w.size);
    notification, cursor := ReadScalar(b, cursor, w.notificationId);
    d, count := BufferDescription(rank, segment, offset, size, notification), cursor - at;
  }

  /** A row of five, taken apart. */
  lemma FiveParts(a: seq<byte>, b: seq<byte>, c: seq<byte>, d: seq<byte>, e: seq<byte>, s: seq<byte>)
    requires s == a + b + c + d + e
    ensures var k2, k3, k4 := |a| + |b|, |a| + |b| + |c|, |a| + |b| + |c| + |d|;
            s[0..|a|] == a && s[|a|..k2] == b && s[k2..k3] == c && s[k3..k4] == d && s[k4..k4 + |e|] == e
  {}

  lemma SliceOfSlice(b: seq<byte>, at: nat, s: seq<byte>, i: nat, j: nat)
    requires at + |s| <= |b| && s == b[at..at + |s|] && i <= j <= |s|
    ensures s[i..j] == b[at + i..at + j]
  {
    forall k | i <= k < j ensures s[k] == b[at + k] {}
  }

  /** A description stands for itself wherever it stands. */
  lemma DescriptionMoves(w: Widths, b: seq<byte>, at: nat, s: seq<byte>)
    requires at + DescriptionSize(w) <= |b| && s == b[at..at + DescriptionSize(w)]
    ensures DescriptionAt(w, b, at) == DescriptionAt(w, s, 0)
  {
    var c1, c2 := w.rank, w.rank + w.segmentId;
    var c3 := c2 + w.offset;
    var c4 := c3 + w.size;
    SliceOfSlice(b, at, s, 0, c1);
    SliceOfSlice(b, at, s, c1, c2);
    SliceOfSlice(b, at, s, c2, c3);
    SliceOfSlice(b, at, s, c3, c4);
    SliceOfSlice(b, at, s, c4, c4 + w.notificationId);
  }

  lemma FieldsDecode(w: Widths, d: BufferDescription, s: seq<byte>)
    requires Fits(w, d) && |s| == DescriptionSize(w)
    requires var k2, k3 := w.rank + w.segmentId, w.rank + w.segmentId + w.offset;
             && s[0..w.rank] == Encode(d.rank, w.rank) && s[w.rank..k2] == Encode(d.segmentId, w.segmentId)
             && s[k2..k3] == Encode(d.offset, w.offset) && s[k3..k3 + w.size] == Encode(d.size, w.size)
             && s[k3 + w.size..k3 + w.size + w.notificationId] == Encode(d.notificationId, w.notificationId)
    ensures DescriptionAt(w, s, 0) == d
  {
    DecodeEncode(d.rank, w.rank);
    DecodeEncode(d.segmentId, w.segmentId);
    DecodeEncode(d.offset, w.offset);
    DecodeEncode(d.size, w.size);
    DecodeEncode(d.notificationId, w.notificationId);
  }

  lemma PartsDecode(w: Widths, d: BufferDescription, r: seq<byte>, g: seq<byte>, o: seq<byte>, z: seq<byte>,
                    n: seq<byte>, s: seq<byte>)
    requires Fits(w, d) && s == r + g + o + z + n
    requires r == Encode(d.rank, w.rank) && g == Encode(d.segmentId, w.segmentId)
    requires o == Encode(d.offset, w.offset) && z == Encode(d.size, w.size)
    requires n == Encode(d.notificationId, w.notificationId)
    ensures |s| == DescriptionSize(w) && DescriptionAt(w, s, 0) == d
  {
    FiveParts(r, g, o, z, n, s);
    FieldsDecode(w, d, s);
  }

  lemma DescriptionDecodes(w: Widths, d: BufferDescription)
    requires Fits(w, d)
    ensures DescriptionAt(w, SerializeDescription(w, d), 0) == d
  {
    PartsDecode(w, d, Encode(d.rank, w.rank), Encode(d.segmentId, w.segmentId), Encode(d.offset, w.offset),
                Encode(d.size, w.size), Encode(d.notificationId, w.notificationId), SerializeDescription(w, d));
  }

  /** A serialized description decodes to itself wherever it stands. */
  lemma DescriptionRoundTrip(w: Widths, b: seq<byte>, at: nat, d: BufferDescription)
    requires Fits(w, d) && at + DescriptionSize(w) <= |b|
    requires b[at..at + DescriptionSize(w)] == SerializeDescription(w, d)
    ensures DescriptionAt(w, b, at) == d
  {
    DescriptionMoves(w, b, at, SerializeDescription(w, d));
    DescriptionDecodes(w, d);
  }

  lemma TwoParts(a: seq<byte>, b: seq<byte>, rest: seq<byte>, s: seq<byte>)
    requires s == a + b + rest
    ensures s[0..|a|] == a && s[|a|..|a| + |b|] == b
  {}

  /** Two descriptions written back to back, as the exchange of alltoallv does, decode one after the
      other, each to itself, whatever follows. */
  lemma BackToBack(w: Widths, first: BufferDescription, second: BufferDescription, rest: seq<byte>)
    requires Fits(w, first) && Fits(w, second)
    ensures var b := SerializeDescription(w, first) + SerializeDescription(w, second) + rest;
            DescriptionAt(w, b, 0) == first && DescriptionAt(w, b, DescriptionSize(w)) == second
  {
    var b := SerializeDescription(w, first) + SerializeDescription(w, second) + rest;
    TwoParts(SerializeDescription(w, first), SerializeDescription(w, second), rest, b);
    DescriptionRoundTrip(w, b, 0, first);
    DescriptionRoundTrip(w, b, DescriptionSize(w), second);
  }
}
