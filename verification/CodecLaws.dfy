/** What the codec promises: round trips, unread suffixes, canonical encodings and the normal form of maps and sets. */
module CodecLaws {
  import opened Bytes
  import opened Codec

  // ---- A read depends only on the bytes it uses up ----------------------------------------

  /** More bytes behind an accepted value change nothing but the rest. */
  lemma {:induction false} DecExtends(t: Ty, s: Octets, q: Octets)
    requires Dec(t, s).Ok?
    ensures Dec(t, s + q) == Ok(Dec(t, s).value, Dec(t, s).rest + q)
    decreases t, 1
  {
    match t
    case Raw(width) => TakeExtends(width, s, q);
    case Bool => assert (s + q)[1..] == s[1..] + q;
    case Array(elem, len) => ListExtends(elem, s, q);
    case Vector(elem) => ListExtends(elem, s, q);
    case Str(elem) => ListExtends(elem, s, q);
    case Tuple(_) => BlobExtends(t, s, q);
    case Optional(_) => BlobExtends(t, s, q);
    case Variant(_) => BlobExtends(t, s, q);
    case Ordered(_, _) => BlobExtends(t, s, q);
  }

  lemma TakeExtends(n: nat, s: Octets, q: Octets)
    requires n <= |s|
    ensures Take(n, s + q) == Ok(s[..n], s[n..] + q)
  {
    assert (s + q)[..n] == s[..n];
    assert (s + q)[n..] == s[n..] + q;
  }

  lemma BlobExtends(t: Ty, s: Octets, q: Octets)
    requires IsCustom(t) && DecBlob(t, s).Ok?
    ensures DecBlob(t, s + q) == Ok(DecBlob(t, s).value, DecBlob(t, s).rest + q)
  {
    TakeExtends(8, s, q);
    var Ok(n, body) := DecSize(s);
    TakeExtends(n, body, q);
  }

  lemma {:induction false} ListExtends(elem: Ty, s: Octets, q: Octets)
    requires DecSize(s).Ok?
    ensures DecSize(s + q) == Ok(DecSize(s).value, DecSize(s).rest + q)
    ensures DecAll(elem, DecSize(s).value, DecSize(s).rest).Ok? ==>
      DecAll(elem, DecSize(s).value, DecSize(s).rest + q) ==
      Ok(DecAll(elem, DecSize(s).value, DecSize(s).rest).value,
        DecAll(elem, DecSize(s).value, DecSize(s).rest).rest + q)
    decreases elem, 3
  {
    TakeExtends(8, s, q);
    if DecAll(elem, DecSize(s).value, DecSize(s).rest).Ok? {
      AllExtends(elem, DecSize(s).value, DecSize(s).rest, q);
    }
  }

  lemma {:induction false} AllExtends(t: Ty, n: nat, s: Octets, q: Octets)
    requires DecAll(t, n, s).Ok?
    ensures DecAll(t, n, s + q) == Ok(DecAll(t, n, s).value, DecAll(t, n, s).rest + q)
    decreases t, 2, n
  {
    if n == 0 {
    } else {
      DecExtends(t, s, q);
      AllExtends(t, n - 1, Dec(t, s).rest, q);
    }
  }

  // ---- Round trip -------------------------------------------------------------------------

  /** Reading back what was written returns the value and leaves exactly what stood behind it. */
  lemma {:induction false} RoundTrip(t: Ty, v: Val, rest: Octets)
    requires WellFormed(t) && HasType(t, v) && Enc(t, v).Some?
    ensures Dec(t, Enc(t, v).value + rest) == Ok(v, rest)
    decreases t, 2
  {
    var bytes := Enc(t, v).value;
    match t
    case Raw(width) =>
      assert (bytes + rest)[..width] == v.bytes;
      assert (bytes + rest)[width..] == rest;
    case Bool => assert (bytes + rest)[1..] == rest;
    case Array(elem, _) => ListRoundTrip(elem, v.elems, rest);
    case Vector(elem) => ListRoundTrip(elem, v.elems, rest);
    case Str(elem) => ListRoundTrip(elem, v.elems, rest);
    case Tuple(_) => BlobRoundTrip(t, v, rest);
    case Optional(_) => BlobRoundTrip(t, v, rest);
    case Variant(_) => BlobRoundTrip(t, v, rest);
    case Ordered(_, _) => BlobRoundTrip(t, v, rest);
  }

  lemma SizeRoundTrip(n: nat, rest: Octets)
    requires n < SIZE_LIMIT
    ensures DecSize(U64(n) + rest) == Ok(n, rest)
  {
    var s := U64(n) + rest;
    assert s[..8] == U64(n) && s[8..] == rest;
    U64RoundTrip(n);
  }

  lemma {:induction false} ListRoundTrip(elem: Ty, vs: seq<Val>, rest: Octets)
    requires WellFormed(elem) && AllHaveType(elem, vs)
    requires List(elem, |vs|, EncAll(elem, vs)).Some?
    ensures DecSize(List(elem, |vs|, EncAll(elem, vs)).value + rest).Ok?
    ensures var body := DecSize(List(elem, |vs|, EncAll(elem, vs)).value + rest);
      body.value == |vs| && DecList(elem, |vs|, body.rest) == Ok(SeqV(vs), rest)
    decreases elem, 4
  {
    var body := EncAll(elem, vs).value;
    assert U64(|vs|) + body + rest == U64(|vs|) + (body + rest);
    SizeRoundTrip(|vs|, body + rest);
    AllRoundTrip(elem, vs, rest);
    if IsRaw(elem) {
      RawBlockLength(elem, vs);
    }
  }

  lemma {:induction false} RawBlockLength(t: Ty, vs: seq<Val>)
    requires IsRaw(t) && AllHaveType(t, vs)
    ensures EncAll(t, vs).Some? && |EncAll(t, vs).value| == |vs| * RawWidth(t)
  {
    if vs == [] {
    } else {
      RawBlockLength(t, vs[1..]);
      assert HasType(t, vs[0]) && |Enc(t, vs[0]).value| == RawWidth(t);
      assert |vs| * RawWidth(t) == RawWidth(t) + |vs[1..]| * RawWidth(t);
    }
  }

  lemma {:induction false} AllRoundTrip(t: Ty, vs: seq<Val>, rest: Octets)
    requires WellFormed(t) && AllHaveType(t, vs) && EncAll(t, vs).Some?
    ensures DecAll(t, |vs|, EncAll(t, vs).value + rest) == Ok(vs, rest)
    decreases t, 3, |vs|
  {
    hide HasType, Enc, Dec, WellFormed;
    if vs != [] {
      var tail := EncAll(t, vs[1..]).value;
      assert EncAll(t, vs).value + rest == Enc(t, vs[0]).value + (tail + rest);
      RoundTrip(t, vs[0], tail + rest);
      AllRoundTrip(t, vs[1..], rest);
      assert vs == [vs[0]] + vs[1..];
    } else {
      assert EncAll(t, vs).value + rest == rest;
    }
  }

  lemma {:induction false} EachRoundTrip(ts: seq<Ty>, vs: seq<Val>, rest: Octets)
    requires (forall u | u in ts :: WellFormed(u)) && HaveTypes(ts, vs) && EncEach(ts, vs).Some?
    ensures DecEach(ts, EncEach(ts, vs).value + rest) == Ok(vs, rest)
    decreases ts, 0
  {
    hide HasType, Enc, Dec, WellFormed;
    if ts != [] {
      var tail := EncEach(ts[1..], vs[1..]).value;
      assert EncEach(ts, vs).value + rest == Enc(ts[0], vs[0]).value + (tail + rest);
      RoundTrip(ts[0], vs[0], tail + rest);
      EachRoundTrip(ts[1..], vs[1..], rest);
      assert vs == [vs[0]] + vs[1..];
    } else {
      assert EncEach(ts, vs).value + rest == rest;
    }
  }

  lemma {:induction false} EntriesRoundTrip(fields: seq<Ty>, es: seq<Val>, rest: Octets)
    requires (forall u | u in fields :: WellFormed(u)) && EntriesHaveTypes(fields, es)
    requires EncEntries(fields, es).Some?
    ensures DecEntries(fields, |es|, EncEntries(fields, es).value + rest) == Ok(es, rest)
    decreases fields, 1, |es|
  {
    hide HasType, HaveTypes, EncEach, DecEach, WellFormed;
    if es != [] {
      var tail := EncEntries(fields, es[1..]).value;
      assert EncEntries(fields, es).value + rest == EncEach(fields, es[0].parts).value + (tail + rest);
      EachRoundTrip(fields, es[0].parts, tail + rest);
      EntriesRoundTrip(fields, es[1..], rest);
      assert es == [es[0]] + es[1..];
    } else {
      assert EncEntries(fields, es).value + rest == rest;
    }
  }

  lemma {:induction false} BlobRoundTrip(t: Ty, v: Val, rest: Octets)
    requires IsCustom(t) && WellFormed(t) && HasType(t, v) && Blob(EncBody(t, v)).Some?
    ensures DecBlob(t, Blob(EncBody(t, v)).value + rest) == Ok(v, rest)
    decreases t, 1
  {
    hide HasType, EncBody, DecBody, WellFormed;
    var body := EncBody(t, v).value;
    assert U64(|body|) + body + rest == U64(|body|) + (body + rest);
    SizeRoundTrip(|body|, body + rest);
    assert (body + rest)[..|body|] == body && (body + rest)[|body|..] == rest;
    BodyRoundTrip(t, v);
  }

  lemma {:induction false} BodyRoundTrip(t: Ty, v: Val)
    requires IsCustom(t) && WellFormed(t) && HasType(t, v) && EncBody(t, v).Some?
    ensures DecBody(t, EncBody(t, v).value) == Some(v)
    decreases t, 0
  {
    hide StrictWeakOrder, StrictlySorted, EmplaceAll, DecEach, DecEntries, EncEach, EncEntries, HaveTypes;
    var body := EncBody(t, v).value;
    match t
    case Tuple(items) =>
      EachRoundTrip(items, v.parts, []);
      assert body + [] == body;
    case Optional(item) =>
      if v.SomeV? {
        RoundTrip(item, v.item, []);
        assert body[1..] == Enc(item, v.item).value + [];
      }
    case Variant(alts) =>
      var tail := Enc(alts[v.index], v.active).value;
      assert tail + [] == tail;
      SizeRoundTrip(v.index, tail);
      RoundTrip(alts[v.index], v.active, []);
    case Ordered(fields, less) =>
      EntriesRoundTrip(fields, v.entries, []);
      OrderedRoundTrip(t, v);
  }

  lemma OrderedRoundTrip(t: Ty, v: Val)
    requires t.Ordered? && WellFormed(t) && HasType(t, v) && EncBody(t, v).Some?
    requires var body := EncEntries(t.fields, v.entries).value;
      DecEntries(t.fields, |v.entries|, body + []) == Ok(v.entries, [])
    ensures DecBody(t, EncBody(t, v).value) == Some(v)
  {
    var tail := EncEntries(t.fields, v.entries).value;
    assert tail + [] == tail;
    SizeRoundTrip(|v.entries|, tail);
    assert [] + v.entries == v.entries;
    EmplaceSorted([], v.entries, t.less);
  }

  // ---- The layout, byte by byte -----------------------------------------------------------

  const ZEROS: Octets := [0, 0, 0, 0, 0, 0, 0]

  lemma SmallSize(n: Byte)
    ensures U64(n) == [n] + ZEROS
  {
    Widths();
    ZeroBytes(7);
  }

  lemma {:induction false} ZeroBytes(width: nat)
    ensures |ToLE(0, width)| == width && forall k | 0 <= k < width :: ToLE(0, width)[k] == 0
  {
    if width == 0 {
    } else {
      ZeroBytes(width - 1);
    }
  }

  /** A vector, an optional, a variant and a map on the wire. */
  lemma WireFormat(less: (Val, Val) -> bool, a: Byte, b: Byte)
    ensures var v := SeqV([RawV([a]), RawV([b])]);
      HasType(Vector(Raw(1)), v) && Enc(Vector(Raw(1)), v) == Some([2] + ZEROS + [a, b])
    ensures Enc(Optional(Raw(1)), SomeV(RawV([a]))) == Some([2] + ZEROS + [1, a])
    ensures Enc(Optional(Raw(1)), NoneV) == Some([1] + ZEROS + [0])
    ensures Enc(Variant([Bool, Raw(1)]), AltV(1, RawV([a]))) == Some([9] + ZEROS + ([1] + ZEROS + [a]))
    ensures var t, v := Ordered([Raw(1), Bool], less), OrdV([TupV([RawV([a]), BoolV(true)])]);
      HasType(t, v) && Enc(t, v) == Some([10] + ZEROS + ([1] + ZEROS + [a, 1]))
  {
    hide EncAll, AllHaveType, EncEntries, EntriesHaveTypes, EncEach, HaveTypes, StrictlySorted;
    SmallSize(1);
    SmallSize(2);
    SmallSize(9);
    VectorOnWire(a, b);
    assert [1] + [a] == [1, a];
    assert |[1] + ZEROS + [a]| == 9;
    MapOnWire(less, a);
  }

  lemma MapOnWire(less: (Val, Val) -> bool, a: Byte)
    ensures var t, v := Ordered([Raw(1), Bool], less), OrdV([TupV([RawV([a]), BoolV(true)])]);
      HasType(t, v) && Enc(t, v) == Some([10] + ZEROS + ([1] + ZEROS + [a, 1]))
  {
    hide EncEntries, EntriesHaveTypes;
    SmallSize(1);
    SmallSize(10);
    EntryOnWire(less, a);
    var t, v := Ordered([Raw(1), Bool], less), OrdV([TupV([RawV([a]), BoolV(true)])]);
    assert |v.entries| == 1 && EncBody(t, v) == Some([1] + ZEROS + [a, 1]);
  }

  lemma VectorOnWire(a: Byte, b: Byte)
    ensures var vs := [RawV([a]), RawV([b])];
      AllHaveType(Raw(1), vs) && EncAll(Raw(1), vs) == Some([a, b])
  {
    var vs := [RawV([a]), RawV([b])];
    forall v | v in vs
      ensures HasType(Raw(1), v)
    {
      assert v.RawV? && |v.bytes| == 1;
    }
    assert vs[1..] == [RawV([b])] && vs[1..][1..] == [];
    assert Enc(Raw(1), vs[0]) == Some([a]) && Enc(Raw(1), vs[1..][0]) == Some([b]);
    assert EncAll(Raw(1), vs[1..][1..]) == Some([]);
    assert EncAll(Raw(1), vs[1..]) == Some([b] + []);
    assert EncAll(Raw(1), vs) == Some([a] + ([b] + []));
    assert [a] + ([b] + []) == [a, b];
  }

  lemma PartsOnWire(a: Byte)
    ensures HaveTypes([Raw(1), Bool], [RawV([a]), BoolV(true)])
    ensures EncEach([Raw(1), Bool], [RawV([a]), BoolV(true)]) == Some([a, 1])
  {
    var ts, vs := [Raw(1), Bool], [RawV([a]), BoolV(true)];
    assert ts[1..] == [Bool] && vs[1..] == [BoolV(true)] && ts[1..][1..] == [] && vs[1..][1..] == [];
    assert HasType(Raw(1), vs[0]) && HasType(Bool, vs[1]);
    assert HaveTypes(ts[1..][1..], vs[1..][1..]);
    assert HaveTypes(ts[1..], vs[1..]);
    assert EncEach(ts[1..][1..], vs[1..][1..]) == Some([]);
    assert EncEach(ts[1..], vs[1..]) == Some([1] + []);
    assert EncEach(ts, vs) == Some([a] + ([1] + []));
    assert [a] + ([1] + []) == [a, 1];
  }

  lemma EntryOnWire(less: (Val, Val) -> bool, a: Byte)
    ensures var es := [TupV([RawV([a]), BoolV(true)])];
      EntriesHaveTypes([Raw(1), Bool], es) && EncEntries([Raw(1), Bool], es) == Some([a, 1])
  {
    var es := [TupV([RawV([a]), BoolV(true)])];
    PartsOnWire(a);
    assert es[1..] == [];
    assert EncEntries([Raw(1), Bool], es[1..]) == Some([]);
    assert EncEntries([Raw(1), Bool], es) == Some([a, 1] + []);
    assert [a, 1] + [] == [a, 1];
  }

  /** `from_bytes` undoes `to_bytes`. */
  lemma ApiRoundTrip(t: Ty, v: Val)
    requires WellFormed(t) && HasType(t, v) && ToBytes(t, v).Some?
    ensures FromBytes(t, ToBytes(t, v).value) == Some(v)
  {
    hide Enc, Dec, HasType, WellFormed;
    RoundTrip(t, v, []);
    assert Enc(t, v).value + [] == Enc(t, v).value;
  }

  /** No two values of a type share an encoding, and no encoding begins another one. */
  lemma PrefixFree(t: Ty, v: Val, w: Val, rest: Octets)
    requires WellFormed(t) && HasType(t, v) && HasType(t, w)
    requires Enc(t, v).Some? && Enc(t, w) == Some(Enc(t, v).value + rest)
    ensures v == w && rest == []
  {
    hide Enc, Dec, HasType, WellFormed;
    RoundTrip(t, v, rest);
    RoundTrip(t, w, []);
    assert Enc(t, w).value + [] == Enc(t, w).value;
  }

  /** Every truncation of an encoding is rejected, for every type. */
  lemma TruncationRejected(t: Ty, v: Val, cut: nat)
    requires WellFormed(t) && HasType(t, v) && Enc(t, v).Some? && cut < |Enc(t, v).value|
    ensures Dec(t, Enc(t, v).value[..cut]).Err?
  {
    hide Enc, Dec, HasType, WellFormed;
    var whole := Enc(t, v).value;
    if Dec(t, whole[..cut]).Ok? {
      DecExtends(t, whole[..cut], whole[cut..]);
      assert whole[..cut] + whole[cut..] == whole;
      assert whole + [] == whole;
      RoundTrip(t, v, []);
    }
  }

  // ---- Canonical encodings and normal forms -----------------------------------------------

  /** Reading `s` meets the entries of every map and set in strict key order, at whatever depth these stand. */
  predicate InOrder(t: Ty, s: Octets)
    decreases t, 2
  {
    match t
    case Raw(_) => true
    case Bool => true
    case Array(elem, _) => ListInOrder(elem, s)
    case Vector(elem) => ListInOrder(elem, s)
    case Str(elem) => ListInOrder(elem, s)
    case Tuple(_) => BlobInOrder(t, s)
    case Optional(_) => BlobInOrder(t, s)
    case Variant(_) => BlobInOrder(t, s)
    case Ordered(_, _) => BlobInOrder(t, s)
  }

  predicate ListInOrder(elem: Ty, s: Octets)
    decreases elem, 4
  {
    match DecSize(s) case Ok(n, body) => AllInOrder(elem, n, body) case Err => true
  }

  predicate BlobInOrder(t: Ty, s: Octets)
    requires IsCustom(t)
    decreases t, 1
  {
    match DecSize(s)
    case Err => true
    case Ok(n, body) => match Take(n, body) case Ok(blob, _) => BodyInOrder(t, blob) case Err => true
  }

  predicate BodyInOrder(t: Ty, blob: Octets)
    requires IsCustom(t)
    decreases t, 0
  {
    match t
    case Tuple(items) => EachInOrder(items, blob)
    case Optional(item) => (match DecFlag(blob) case Ok(flag, body) => flag ==> InOrder(item, body) case Err => true)
    case Variant(alts) => (match DecSize(blob)
      case Ok(index, body) => index < |alts| ==> InOrder(alts[index], body)
      case Err => true)
    case Ordered(fields, less) => (match DecSize(blob)
      case Err => true
      case Ok(n, body) =>
        && EntriesInOrder(fields, n, body)
        && match DecEntries(fields, n, body) case Ok(es, _) => StrictlySorted(es, less) case Err => true)
  }

  predicate AllInOrder(t: Ty, n: nat, s: Octets)
    decreases t, 3, n
  {
    n == 0 ||
    (InOrder(t, s) && match Dec(t, s) case Ok(_, rest) => AllInOrder(t, n - 1, rest) case Err => true)
  }

  predicate EachInOrder(ts: seq<Ty>, s: Octets)
    decreases ts, 0
  {
    ts == [] ||
    (InOrder(ts[0], s) && match Dec(ts[0], s) case Ok(_, rest) => EachInOrder(ts[1..], rest) case Err => true)
  }

  predicate EntriesInOrder(fields: seq<Ty>, n: nat, s: Octets)
    decreases fields, 1, n
  {
    n == 0 ||
    (EachInOrder(fields, s)
     && match DecEach(fields, s) case Ok(_, rest) => EntriesInOrder(fields, n - 1, rest) case Err => true)
  }

  /** The value a read accepts can be written again, in no more bytes than were used up: in the same bytes exactly when
      these are `tidy`. */
  ghost predicate Rewrites(enc: Option<Octets>, s: Octets, rest: Octets, tidy: bool) {
    && |rest| <= |s| && s[|s| - |rest|..] == rest
    && enc.Some? && |enc.value| <= |s| - |rest|
    && (tidy <==> enc.value + rest == s)
  }

  lemma RewritesCat(a: Option<Octets>, b: Option<Octets>, s: Octets, mid: Octets, rest: Octets, p: bool, q: bool)
    requires Rewrites(a, s, mid, p) && Rewrites(b, mid, rest, q)
    ensures Rewrites(Cat(a, b), s, rest, p && q)
  {
    assert s == s[..|s| - |mid|] + mid;
    assert a.value + b.value + rest == a.value + (b.value + rest);
    if a.value + (b.value + rest) == s {
      assert |b.value + rest| == |mid|;
      assert s[|s| - |mid|..] == b.value + rest;
    }
  }

  lemma NothingRewrites(s: Octets)
    ensures Rewrites(Some([]), s, s, true)
  {
    assert s[|s| - |s|..] == s && [] + s == s;
  }

  lemma SizeRewrites(s: Octets)
    requires DecSize(s).Ok?
    ensures Rewrites(Size(DecSize(s).value), s, DecSize(s).rest, true)
  {
    U64Canonical(s[..8]);
  }

  /** Every accepted value has the type that was asked for and writes back: never into more bytes than were used up, and
      into the very same bytes exactly when every map and set in them stands in strict key order. */
  lemma {:induction false} DecNormal(t: Ty, s: Octets)
    requires WellFormed(t) && Dec(t, s).Ok?
    ensures HasType(t, Dec(t, s).value)
    ensures Rewrites(Enc(t, Dec(t, s).value), s, Dec(t, s).rest, InOrder(t, s))
    decreases t, 2
  {
    match t
    case Raw(width) =>
    case Bool =>
    case Array(elem, len) => ListNormal(elem, s);
    case Vector(elem) => ListNormal(elem, s);
    case Str(elem) => ListNormal(elem, s);
    case Tuple(_) => BlobNormal(t, s);
    case Optional(_) => BlobNormal(t, s);
    case Variant(_) => BlobNormal(t, s);
    case Ordered(_, _) => BlobNormal(t, s);
  }

  lemma {:induction false} ListNormal(elem: Ty, s: Octets)
    requires WellFormed(elem) && DecSize(s).Ok? && DecList(elem, DecSize(s).value, DecSize(s).rest).Ok?
    ensures var Ok(v, rest) := DecList(elem, DecSize(s).value, DecSize(s).rest);
      && v.SeqV? && |v.elems| == DecSize(s).value && AllHaveType(elem, v.elems)
      && Rewrites(List(elem, |v.elems|, EncAll(elem, v.elems)), s, rest, ListInOrder(elem, s))
    decreases elem, 4
  {
    var Ok(n, body) := DecSize(s);
    SizeRewrites(s);
    AllNormal(elem, n, body);
    var vs := DecAll(elem, n, body).value;
    if IsRaw(elem) {
      RawBlockLength(elem, vs);
    }
    RewritesCat(Size(n), EncAll(elem, vs), s, body, DecAll(elem, n, body).rest, true, AllInOrder(elem, n, body));
  }

  lemma {:induction false} AllNormal(t: Ty, n: nat, s: Octets)
    requires WellFormed(t) && DecAll(t, n, s).Ok?
    ensures |DecAll(t, n, s).value| == n && AllHaveType(t, DecAll(t, n, s).value)
    ensures Rewrites(EncAll(t, DecAll(t, n, s).value), s, DecAll(t, n, s).rest, AllInOrder(t, n, s))
    decreases t, 3, n
  {
    hide Rewrites, Cat, HasType, Enc, InOrder;
    if n == 0 {
      NothingRewrites(s);
    } else {
      DecNormal(t, s);
      var Ok(v, mid) := Dec(t, s);
      AllNormal(t, n - 1, mid);
      var Ok(vs, rest) := DecAll(t, n - 1, mid);
      assert DecAll(t, n, s) == Ok([v] + vs, rest);
      PrependTyped(t, v, vs);
      RewritesCat(Enc(t, v), EncAll(t, vs), s, mid, rest, InOrder(t, s), AllInOrder(t, n - 1, mid));
    }
  }

  lemma PrependTyped(t: Ty, v: Val, vs: seq<Val>)
    requires HasType(t, v) && AllHaveType(t, vs)
    ensures AllHaveType(t, [v] + vs) && EncAll(t, [v] + vs) == Cat(Enc(t, v), EncAll(t, vs))
  {
    assert ([v] + vs)[1..] == vs;
  }

  lemma {:induction false} EachNormal(ts: seq<Ty>, s: Octets)
    requires (forall u | u in ts :: WellFormed(u)) && DecEach(ts, s).Ok?
    ensures HaveTypes(ts, DecEach(ts, s).value)
    ensures Rewrites(EncEach(ts, DecEach(ts, s).value), s, DecEach(ts, s).rest, EachInOrder(ts, s))
    decreases ts, 0
  {
    hide Rewrites, Cat, HasType, Enc, InOrder;
    if ts == [] {
      NothingRewrites(s);
    } else {
      DecNormal(ts[0], s);
      var Ok(v, mid) := Dec(ts[0], s);
      EachNormal(ts[1..], mid);
      var Ok(vs, rest) := DecEach(ts[1..], mid);
      assert DecEach(ts, s) == Ok([v] + vs, rest);
      PrependEach(ts, v, vs);
      RewritesCat(Enc(ts[0], v), EncEach(ts[1..], vs), s, mid, rest, InOrder(ts[0], s), EachInOrder(ts[1..], mid));
    }
  }

  lemma PrependEach(ts: seq<Ty>, v: Val, vs: seq<Val>)
    requires ts != [] && HasType(ts[0], v) && HaveTypes(ts[1..], vs)
    ensures HaveTypes(ts, [v] + vs) && EncEach(ts, [v] + vs) == Cat(Enc(ts[0], v), EncEach(ts[1..], vs))
  {
    hide HasType, Enc;
    assert ([v] + vs)[1..] == vs;
  }

  lemma {:induction false} EntriesNormal(fields: seq<Ty>, n: nat, s: Octets)
    requires (forall u | u in fields :: WellFormed(u)) && DecEntries(fields, n, s).Ok?
    ensures |DecEntries(fields, n, s).value| == n && EntriesHaveTypes(fields, DecEntries(fields, n, s).value)
    ensures Rewrites(EncEntries(fields, DecEntries(fields, n, s).value), s, DecEntries(fields, n, s).rest,
                     EntriesInOrder(fields, n, s))
    decreases fields, 1, n
  {
    hide Rewrites, Cat, HaveTypes, DecEach, EncEach, EachInOrder;
    if n == 0 {
      NothingRewrites(s);
    } else {
      EachNormal(fields, s);
      var Ok(parts, mid) := DecEach(fields, s);
      EntriesNormal(fields, n - 1, mid);
      var Ok(es, rest) := DecEntries(fields, n - 1, mid);
      assert ([TupV(parts)] + es)[1..] == es;
      RewritesCat(EncEach(fields, parts), EncEntries(fields, es), s, mid, rest,
                  EachInOrder(fields, s), EntriesInOrder(fields, n - 1, mid));
    }
  }

  lemma {:induction false} BlobNormal(t: Ty, s: Octets)
    requires IsCustom(t) && WellFormed(t) && DecBlob(t, s).Ok?
    ensures HasType(t, DecBlob(t, s).value)
    ensures Rewrites(Blob(EncBody(t, DecBlob(t, s).value)), s, DecBlob(t, s).rest, BlobInOrder(t, s))
    decreases t, 1
  {
    SizeRewrites(s);
    var Ok(n, body) := DecSize(s);
    var Ok(blob, rest) := Take(n, body);
    BodyNormal(t, blob);
    BlobRewrites(EncBody(t, DecBody(t, blob).value), s, BodyInOrder(t, blob));
  }

  lemma BlobRewrites(enc: Option<Octets>, s: Octets, tidy: bool)
    requires DecSize(s).Ok? && Take(DecSize(s).value, DecSize(s).rest).Ok?
    requires Rewrites(Size(DecSize(s).value), s, DecSize(s).rest, true)
    requires Rewrites(enc, Take(DecSize(s).value, DecSize(s).rest).value, [], tidy)
    ensures Rewrites(Blob(enc), s, Take(DecSize(s).value, DecSize(s).rest).rest, tidy)
  {
    var Ok(n, body) := DecSize(s);
    var Ok(blob, rest) := Take(n, body);
    var e := enc.value;
    assert e + [] == e;
    assert U64(n) + body == s && blob + rest == body;
    assert Blob(enc).value == U64(|e|) + e;
    SameBlob(U64(n), U64(|e|), blob, e, rest, s);
  }

  lemma SameBlob(a: Octets, b: Octets, blob: Octets, e: Octets, rest: Octets, s: Octets)
    requires |a| == |b| && a + (blob + rest) == s && (blob == e ==> a == b)
    ensures b + e + rest == s <==> e == blob
  {
    assert a + (blob + rest) == a + blob + rest;
    if b + e + rest == s {
      assert |e| == |blob|;
      assert (b + e + rest)[|a|..|a| + |e|] == e;
      assert (a + blob + rest)[|a|..|a| + |e|] == blob;
    }
  }

  lemma {:induction false} BodyNormal(t: Ty, blob: Octets)
    requires IsCustom(t) && WellFormed(t) && DecBody(t, blob).Some?
    ensures HasType(t, DecBody(t, blob).value)
    ensures Rewrites(EncBody(t, DecBody(t, blob).value), blob, [], BodyInOrder(t, blob))
    decreases t, 0
  {
    hide Rewrites, HasType, HaveTypes, EncBody, EncEach, EncEntries, Enc, InOrder, EachInOrder, EntriesInOrder,
      BodyInOrder, Cat, Size, Dec, DecEach, DecEntries, EmplaceAll;
    match t
    case Tuple(items) =>
      EachNormal(items, blob);
      TupleNormal(t, blob);
    case Optional(item) =>
      if DecFlag(blob).value {
        DecNormal(item, blob[1..]);
      }
      OptionalNormal(t, blob);
    case Variant(alts) =>
      var Ok(index, body) := DecSize(blob);
      DecNormal(alts[index], body);
      SizeRewrites(blob);
      RewritesCat(Size(index), Enc(alts[index], Dec(alts[index], body).value), blob, body, [], true,
        InOrder(alts[index], body));
      VariantNormal(t, blob);
    case Ordered(fields, less) =>
      SizeRewrites(blob);
      var Ok(n, body) := DecSize(blob);
      EntriesNormal(fields, n, body);
      OrderedNormal(t, blob);
  }

  lemma TupleNormal(t: Ty, blob: Octets)
    requires t.Tuple? && DecBody(t, blob).Some? && HaveTypes(t.items, DecEach(t.items, blob).value)
    requires Rewrites(EncEach(t.items, DecEach(t.items, blob).value), blob, [], EachInOrder(t.items, blob))
    ensures HasType(t, DecBody(t, blob).value)
    ensures Rewrites(EncBody(t, DecBody(t, blob).value), blob, [], BodyInOrder(t, blob))
  {
    hide Rewrites, HaveTypes, DecEach, EncEach, EachInOrder;
  }

  lemma OptionalNormal(t: Ty, blob: Octets)
    requires t.Optional? && DecBody(t, blob).Some?
    requires DecFlag(blob).value ==>
      var v := Dec(t.item, blob[1..]).value;
        HasType(t.item, v) && Rewrites(Enc(t.item, v), blob[1..], [], InOrder(t.item, blob[1..]))
    ensures HasType(t, DecBody(t, blob).value)
    ensures Rewrites(EncBody(t, DecBody(t, blob).value), blob, [], BodyInOrder(t, blob))
  {
    if DecFlag(blob).value {
      RewritesCat(Some([1]), Enc(t.item, Dec(t.item, blob[1..]).value), blob, blob[1..], [], true,
        InOrder(t.item, blob[1..]));
    }
  }

  lemma VariantNormal(t: Ty, blob: Octets)
    requires t.Variant? && DecBody(t, blob).Some?
    requires var Ok(index, body) := DecSize(blob);
      && HasType(t.alts[index], Dec(t.alts[index], body).value)
      && Rewrites(Cat(Size(index), Enc(t.alts[index], Dec(t.alts[index], body).value)), blob, [],
        InOrder(t.alts[index], body))
    ensures HasType(t, DecBody(t, blob).value)
    ensures Rewrites(EncBody(t, DecBody(t, blob).value), blob, [], BodyInOrder(t, blob))
  {
    hide Cat, Size;
  }

  lemma OrderedNormal(t: Ty, blob: Octets)
    requires t.Ordered? && WellFormed(t) && DecBody(t, blob).Some?
    requires var Ok(n, body) := DecSize(blob); var es := DecEntries(t.fields, n, body).value;
      && |es| == n && EntriesHaveTypes(t.fields, es)
      && Rewrites(Size(n), blob, body, true)
      && Rewrites(EncEntries(t.fields, es), body, [], EntriesInOrder(t.fields, n, body))
    ensures HasType(t, DecBody(t, blob).value)
    ensures Rewrites(EncBody(t, DecBody(t, blob).value), blob, [], BodyInOrder(t, blob))
  {
    var Ok(n, body) := DecSize(blob);
    var es := DecEntries(t.fields, n, body).value;
    EmplaceAllSorted([], es, t.less);
    EmplaceAllShrinks(t.fields, [], es, t.less);
    var out := EmplaceAll([], es, t.less);
    assert [] + es == es;
    var tidy := EntriesInOrder(t.fields, n, body);
    RewritesCat(Size(n), EncEntries(t.fields, es), blob, body, [], true, tidy);
    OrderedIff(t.fields, t.less, blob, es, out, tidy);
  }

  /** The container writes the blob back exactly when the entries stood in order and write themselves back. */
  lemma OrderedIff(fields: seq<Ty>, less: (Val, Val) -> bool, blob: Octets, es: seq<Val>, out: seq<Val>, tidy: bool)
    requires (forall u | u in fields :: WellFormed(u)) && StrictWeakOrder(less)
    requires DecSize(blob).Ok? && DecEntries(fields, DecSize(blob).value, DecSize(blob).rest) == Ok(es, [])
    requires EntriesHaveTypes(fields, es) && out == EmplaceAll([], es, less)
    requires EntriesHaveTypes(fields, out) && StrictlySorted(out, less) && EncEntries(fields, out).Some?
      && |out| < SIZE_LIMIT
    requires |es| < SIZE_LIMIT && Rewrites(Cat(Size(|es|), EncEntries(fields, es)), blob, [], tidy)
    ensures Cat(Size(|out|), EncEntries(fields, out)).value + [] == blob <==> tidy && StrictlySorted(es, less)
  {
    hide StrictWeakOrder, WellFormed, EncEntries, DecEntries, EntriesHaveTypes, DecSize, StrictlySorted, EmplaceAll;
    if StrictlySorted(es, less) {
      assert [] + es == es;
      EmplaceSorted([], es, less);
    }
    var tail := EncEntries(fields, out).value;
    assert Cat(Size(|out|), EncEntries(fields, out)).value + [] == U64(|out|) + tail;
    if U64(|out|) + tail == blob {
      SizeRoundTrip(|out|, tail);
      EntriesRoundTrip(fields, out, []);
      assert tail + [] == tail;
    }
  }

  lemma {:induction false} EmplaceAllShrinks(fields: seq<Ty>, acc: seq<Val>, more: seq<Val>, less: (Val, Val) -> bool)
    requires EntriesHaveTypes(fields, acc) && EntriesHaveTypes(fields, more)
    requires EncEntries(fields, acc).Some? && EncEntries(fields, more).Some?
    ensures var out := EmplaceAll(acc, more, less);
      && EntriesHaveTypes(fields, out) && |out| <= |acc| + |more| && EncEntries(fields, out).Some?
      && |EncEntries(fields, out).value| <= |EncEntries(fields, acc).value| + |EncEntries(fields, more).value|
    decreases |more|
  {
    if more == [] {
    } else {
      EmplaceShrinks(fields, acc, more[0], less);
      EmplaceAllShrinks(fields, Emplace(acc, more[0], less), more[1..], less);
    }
  }

  lemma {:induction false} EmplaceShrinks(fields: seq<Ty>, acc: seq<Val>, e: Val, less: (Val, Val) -> bool)
    requires EntriesHaveTypes(fields, acc) && e.TupV? && HaveTypes(fields, e.parts)
    requires EncEntries(fields, acc).Some? && EncEach(fields, e.parts).Some?
    ensures var out := Emplace(acc, e, less);
      && EntriesHaveTypes(fields, out) && |out| <= |acc| + 1 && EncEntries(fields, out).Some?
      && |EncEntries(fields, out).value| <= |EncEntries(fields, acc).value| + |EncEach(fields, e.parts).value|
  {
    if acc == [] {
      assert [e][1..] == [];
    } else if less(Key(e), Key(acc[0])) {
      assert ([e] + acc)[1..] == acc;
    } else if less(Key(acc[0]), Key(e)) {
      EmplaceShrinks(fields, acc[1..], e, less);
      var out := Emplace(acc[1..], e, less);
      assert ([acc[0]] + out)[1..] == out;
    }
  }

  /** For every type, an accepted buffer is the encoding of its value exactly when the entries of every map and set in
      it, nested at any depth, stand in strict key order. */
  lemma CanonicalIff(t: Ty, bytes: Octets)
    requires WellFormed(t) && FromBytes(t, bytes).Some?
    ensures HasType(t, FromBytes(t, bytes).value)
    ensures ToBytes(t, FromBytes(t, bytes).value) == Some(bytes) <==> InOrder(t, bytes)
  {
    DecNormal(t, bytes);
    var enc := Enc(t, FromBytes(t, bytes).value).value;
    assert enc + [] == enc;
  }

  /** Without maps and sets the wire format is canonical: an accepted buffer is the encoding of its value. */
  lemma Canonical(t: Ty, bytes: Octets)
    requires WellFormed(t) && Plain(t) && FromBytes(t, bytes).Some?
    ensures HasType(t, FromBytes(t, bytes).value)
    ensures ToBytes(t, FromBytes(t, bytes).value) == Some(bytes)
  {
    CanonicalIff(t, bytes);
    PlainInOrder(t, bytes);
  }

  lemma {:induction false} PlainInOrder(t: Ty, s: Octets)
    requires Plain(t)
    ensures InOrder(t, s)
    decreases t, 2
  {
    match t
    case Raw(_) =>
    case Bool =>
    case Array(elem, _) => ListPlain(elem, s);
    case Vector(elem) => ListPlain(elem, s);
    case Str(elem) => ListPlain(elem, s);
    case Tuple(_) => BlobPlain(t, s);
    case Optional(_) => BlobPlain(t, s);
    case Variant(_) => BlobPlain(t, s);
  }

  lemma {:induction false} ListPlain(elem: Ty, s: Octets)
    requires Plain(elem)
    ensures ListInOrder(elem, s)
    decreases elem, 4
  {
    if DecSize(s).Ok? {
      AllPlain(elem, DecSize(s).value, DecSize(s).rest);
    }
  }

  lemma {:induction false} AllPlain(t: Ty, n: nat, s: Octets)
    requires Plain(t)
    ensures AllInOrder(t, n, s)
    decreases t, 3, n
  {
    if n == 0 {
    } else {
      PlainInOrder(t, s);
      if Dec(t, s).Ok? {
        AllPlain(t, n - 1, Dec(t, s).rest);
      }
    }
  }

  lemma {:induction false} EachPlain(ts: seq<Ty>, s: Octets)
    requires forall u | u in ts :: Plain(u)
    ensures EachInOrder(ts, s)
    decreases ts, 0
  {
    if ts == [] {
    } else {
      PlainInOrder(ts[0], s);
      if Dec(ts[0], s).Ok? {
        EachPlain(ts[1..], Dec(ts[0], s).rest);
      }
    }
  }

  lemma {:induction false} BlobPlain(t: Ty, s: Octets)
    requires IsCustom(t) && Plain(t)
    ensures BlobInOrder(t, s)
    decreases t, 1
  {
    if DecSize(s).Ok? && Take(DecSize(s).value, DecSize(s).rest).Ok? {
      var blob := Take(DecSize(s).value, DecSize(s).rest).value;
      match t
      case Tuple(items) => EachPlain(items, blob);
      case Optional(item) =>
        if DecFlag(blob).Ok? {
          PlainInOrder(item, DecFlag(blob).rest);
        }
      case Variant(alts) =>
        if DecSize(blob).Ok? && DecSize(blob).value < |alts| {
          PlainInOrder(alts[DecSize(blob).value], DecSize(blob).rest);
        }
    }
  }

  /** For every type, re-encoding an accepted buffer is a normalisation: it succeeds, does not grow,
      decodes to the same value, and normalising again changes nothing. */
  lemma Normalises(t: Ty, bytes: Octets)
    requires WellFormed(t) && FromBytes(t, bytes).Some?
    ensures var v := FromBytes(t, bytes).value;
      && HasType(t, v) && ToBytes(t, v).Some? && |ToBytes(t, v).value| <= |bytes|
      && FromBytes(t, ToBytes(t, v).value) == Some(v)
  {
    DecNormal(t, bytes);
    ApiRoundTrip(t, FromBytes(t, bytes).value);
  }

  // ---- std::map and std::set --------------------------------------------------------------

  lemma Transitive(a: Val, b: Val, c: Val, less: (Val, Val) -> bool)
    requires StrictWeakOrder(less) && less(a, b) && less(b, c)
    ensures less(a, c)
  {}

  lemma Asymmetric(a: Val, b: Val, less: (Val, Val) -> bool)
    requires StrictWeakOrder(less) && less(a, b)
    ensures !less(b, a)
  {
    assert !less(a, a);
  }

  /** Inserting keys that are already in order appends them. */
  lemma {:induction false} EmplaceSorted(acc: seq<Val>, more: seq<Val>, less: (Val, Val) -> bool)
    requires StrictWeakOrder(less) && StrictlySorted(acc + more, less)
    ensures EmplaceAll(acc, more, less) == acc + more
    decreases |more|
  {
    if more == [] {
      assert acc + more == acc;
    } else {
      forall i | 0 <= i < |acc|
        ensures less(Key(acc[i]), Key(more[0]))
      {
        assert (acc + more)[i] == acc[i] && (acc + more)[|acc|] == more[0];
      }
      EmplaceLast(acc, more[0], less);
      assert acc + [more[0]] + more[1..] == acc + more;
      EmplaceSorted(acc + [more[0]], more[1..], less);
    }
  }

  lemma {:induction false} EmplaceLast(acc: seq<Val>, e: Val, less: (Val, Val) -> bool)
    requires StrictWeakOrder(less)
    requires forall i | 0 <= i < |acc| :: less(Key(acc[i]), Key(e))
    ensures Emplace(acc, e, less) == acc + [e]
  {
    hide StrictWeakOrder;
    if acc == [] {
    } else {
      Asymmetric(Key(acc[0]), Key(e), less);
      EmplaceLast(acc[1..], e, less);
    }
  }

  lemma PrependSorted(x: Val, entries: seq<Val>, less: (Val, Val) -> bool)
    requires StrictlySorted(entries, less) && forall e | e in entries :: less(Key(x), Key(e))
    ensures StrictlySorted([x] + entries, less)
  {
    var all := [x] + entries;
    forall i, j | 0 <= i < j < |all|
      ensures less(Key(all[i]), Key(all[j]))
    {
      assert all[j] == entries[j - 1] && (i > 0 ==> all[i] == entries[i - 1]);
    }
  }

  lemma FirstBeforeRest(acc: seq<Val>, less: (Val, Val) -> bool)
    requires StrictlySorted(acc, less) && acc != []
    ensures StrictlySorted(acc[1..], less) && forall e | e in acc[1..] :: less(Key(acc[0]), Key(e))
  {
    forall e | e in acc[1..]
      ensures less(Key(acc[0]), Key(e))
    {
      var j :| 0 <= j < |acc[1..]| && acc[1..][j] == e;
      assert acc[j + 1] == e;
    }
  }

  /** One emplace keeps the container sorted, adds nothing but the new entry and drops nothing. */
  lemma {:induction false} EmplaceKeepsOrder(acc: seq<Val>, e: Val, less: (Val, Val) -> bool)
    requires StrictWeakOrder(less) && StrictlySorted(acc, less)
    ensures StrictlySorted(Emplace(acc, e, less), less)
    ensures forall x | x in Emplace(acc, e, less) :: x == e || x in acc
    ensures forall x | x in acc :: x in Emplace(acc, e, less)
  {
    hide StrictWeakOrder, Key;
    if acc == [] {
      PrependSorted(e, [], less);
    } else {
      hide StrictlySorted;
      FirstBeforeRest(acc, less);
      var rest := acc[1..];
      assert acc == [acc[0]] + rest;
      if less(Key(e), Key(acc[0])) {
        forall x | x in acc
          ensures less(Key(e), Key(x))
        {
          if x in rest {
            Transitive(Key(e), Key(acc[0]), Key(x), less);
          }
        }
        PrependSorted(e, acc, less);
      } else if less(Key(acc[0]), Key(e)) {
        EmplaceKeepsOrder(rest, e, less);
        PrependSorted(acc[0], Emplace(rest, e, less), less);
      }
    }
  }

  lemma {:induction false} EmplaceAllSorted(acc: seq<Val>, more: seq<Val>, less: (Val, Val) -> bool)
    requires StrictWeakOrder(less) && StrictlySorted(acc, less)
    ensures StrictlySorted(EmplaceAll(acc, more, less), less)
    ensures forall x | x in EmplaceAll(acc, more, less) :: x in acc || x in more
    ensures forall x | x in acc :: x in EmplaceAll(acc, more, less)
    decreases |more|
  {
    if more == [] {
    } else {
      EmplaceKeepsOrder(acc, more[0], less);
      EmplaceAllSorted(Emplace(acc, more[0], less), more[1..], less);
    }
  }

  /** Neither key goes before the other: std::map takes the two entries for the same key. */
  predicate Equivalent(a: Val, b: Val, less: (Val, Val) -> bool) {
    !less(Key(a), Key(b)) && !less(Key(b), Key(a))
  }

  lemma EquivalentTrans(a: Val, b: Val, c: Val, less: (Val, Val) -> bool)
    requires StrictWeakOrder(less) && Equivalent(a, b, less) && Equivalent(b, c, less)
    ensures Equivalent(a, c, less)
  {}

  ghost predicate HasKey(entries: seq<Val>, e: Val, less: (Val, Val) -> bool) {
    exists i :: 0 <= i < |entries| && Equivalent(entries[i], e, less)
  }

  lemma HasKeyTail(acc: seq<Val>, e: Val, less: (Val, Val) -> bool)
    requires acc != []
    ensures HasKey(acc, e, less) <==> Equivalent(acc[0], e, less) || HasKey(acc[1..], e, less)
  {
    hide Equivalent;
    if i :| 0 <= i < |acc| && Equivalent(acc[i], e, less) {
      assert i > 0 ==> Equivalent(acc[1..][i - 1], e, less);
    }
    if j :| 0 <= j < |acc[1..]| && Equivalent(acc[1..][j], e, less) {
      assert Equivalent(acc[j + 1], e, less);
    }
  }

  lemma BeforeAll(acc: seq<Val>, e: Val, less: (Val, Val) -> bool)
    requires StrictWeakOrder(less) && StrictlySorted(acc, less) && acc != [] && less(Key(e), Key(acc[0]))
    ensures !HasKey(acc, e, less)
  {
    forall i | 0 <= i < |acc|
      ensures !Equivalent(acc[i], e, less)
    {
      if i > 0 {
        Transitive(Key(e), Key(acc[0]), Key(acc[i]), less);
      }
    }
  }

  /** An entry whose key is present changes nothing; any other entry is added. */
  lemma {:induction false} EmplaceAdds(acc: seq<Val>, e: Val, less: (Val, Val) -> bool)
    requires StrictWeakOrder(less) && StrictlySorted(acc, less)
    ensures HasKey(acc, e, less) ==> Emplace(acc, e, less) == acc
    ensures !HasKey(acc, e, less) ==> e in Emplace(acc, e, less)
  {
    hide StrictWeakOrder;
    if acc == [] {
    } else {
      HasKeyTail(acc, e, less);
      if less(Key(e), Key(acc[0])) {
        BeforeAll(acc, e, less);
      } else if less(Key(acc[0]), Key(e)) {
        EmplaceAdds(acc[1..], e, less);
        assert [acc[0]] + acc[1..] == acc;
      }
    }
  }

  ghost predicate FirstOfItsKey(es: seq<Val>, j: nat, less: (Val, Val) -> bool) {
    j < |es| && forall i | 0 <= i < j :: !Equivalent(es[i], es[j], less)
  }

  lemma {:induction false} EmplaceAppend(acc: seq<Val>, a: seq<Val>, b: seq<Val>, less: (Val, Val) -> bool)
    ensures EmplaceAll(acc, a + b, less) == EmplaceAll(EmplaceAll(acc, a, less), b, less)
    decreases |a|
  {
    if a == [] {
      assert a + b == b;
    } else {
      assert (a + b)[0] == a[0] && (a + b)[1..] == a[1..] + b;
      EmplaceAppend(Emplace(acc, a[0], less), a[1..], b, less);
    }
  }

  /** `out` has every key of `es` and holds exactly those entries that come first with their key. */
  ghost predicate KeepsFirsts(es: seq<Val>, out: seq<Val>, less: (Val, Val) -> bool) {
    && (forall j: nat | FirstOfItsKey(es, j, less) :: es[j] in out)
    && (forall x | x in out :: exists j: nat :: FirstOfItsKey(es, j, less) && x == es[j])
    && (forall k | 0 <= k < |es| :: HasKey(out, es[k], less))
  }

  /** Decoding keeps, for every key in the blob, its first entry and no other, in key order. */
  lemma {:induction false} FirstWins(es: seq<Val>, less: (Val, Val) -> bool)
    requires StrictWeakOrder(less)
    ensures StrictlySorted(EmplaceAll([], es, less), less)
    ensures KeepsFirsts(es, EmplaceAll([], es, less), less)
    decreases |es|
  {
    EmplaceAllSorted([], es, less);
    if es == [] {
    } else {
      var n := |es| - 1;
      FirstWins(es[..n], less);
      assert es[..n] + [es[n]] == es;
      EmplaceAppend([], es[..n], [es[n]], less);
      NextEntry(es[..n], es[n], EmplaceAll([], es[..n], less), less);
    }
  }

  lemma NextEntry(es: seq<Val>, e: Val, was: seq<Val>, less: (Val, Val) -> bool)
    requires StrictWeakOrder(less) && StrictlySorted(was, less) && KeepsFirsts(es, was, less)
    ensures KeepsFirsts(es + [e], Emplace(was, e, less), less)
  {
    EmplaceKeepsOrder(was, e, less);
    EmplaceAdds(was, e, less);
    KeySeen(es, e, was, less);
    assert Equivalent(e, e, less);
    if HasKey(was, e, less) {
      OldKey(es, e, was, less);
    } else {
      NewKey(es, e, was, Emplace(was, e, less), less);
    }
  }

  lemma OldKey(es: seq<Val>, e: Val, was: seq<Val>, less: (Val, Val) -> bool)
    requires KeepsFirsts(es, was, less) && HasKey(was, e, less)
    requires !FirstOfItsKey(es + [e], |es|, less)
    ensures KeepsFirsts(es + [e], was, less)
  {
    FirstsOfPrefix(es, e, less);
    forall x | x in was
      ensures exists j: nat :: FirstOfItsKey(es + [e], j, less) && x == (es + [e])[j]
    {
      var j: nat :| FirstOfItsKey(es, j, less) && x == es[j];
      assert FirstOfItsKey(es + [e], j, less) && (es + [e])[j] == x;
    }
  }

  lemma NewKey(es: seq<Val>, e: Val, was: seq<Val>, now: seq<Val>, less: (Val, Val) -> bool)
    requires KeepsFirsts(es, was, less) && FirstOfItsKey(es + [e], |es|, less) && Equivalent(e, e, less)
    requires forall x :: x in now <==> x == e || x in was
    ensures KeepsFirsts(es + [e], now, less)
  {
    var all := es + [e];
    FirstsOfPrefix(es, e, less);
    forall x | x in now
      ensures exists j: nat :: FirstOfItsKey(all, j, less) && x == all[j]
    {
      if x in was {
        var j: nat :| FirstOfItsKey(es, j, less) && x == es[j];
        assert FirstOfItsKey(all, j, less) && all[j] == x;
      } else {
        assert FirstOfItsKey(all, |es|, less) && all[|es|] == x;
      }
    }
    forall k | 0 <= k < |all|
      ensures HasKey(now, all[k], less)
    {
      if k < |es| {
        HasKeyMonotone(was, now, es[k], less);
      } else {
        assert Equivalent([e][0], e, less);
        HasKeyMonotone([e], now, e, less);
      }
    }
  }

  lemma FirstsOfPrefix(es: seq<Val>, e: Val, less: (Val, Val) -> bool)
    ensures forall j: nat | j < |es| :: FirstOfItsKey(es + [e], j, less) <==> FirstOfItsKey(es, j, less)
  {
    var all := es + [e];
    assert forall i | 0 <= i < |es| :: all[i] == es[i];
    forall j: nat | j < |es|
      ensures FirstOfItsKey(all, j, less) <==> FirstOfItsKey(es, j, less)
    {
      assert forall i | 0 <= i < j :: Equivalent(all[i], all[j], less) == Equivalent(es[i], es[j], less);
    }
  }

  lemma HasKeyMonotone(was: seq<Val>, now: seq<Val>, e: Val, less: (Val, Val) -> bool)
    requires HasKey(was, e, less) && forall x | x in was :: x in now
    ensures HasKey(now, e, less)
  {
    var i :| 0 <= i < |was| && Equivalent(was[i], e, less);
    assert was[i] in now;
    var j :| 0 <= j < |now| && now[j] == was[i];
    assert Equivalent(now[j], e, less);
  }

  lemma KeySeen(es: seq<Val>, e: Val, was: seq<Val>, less: (Val, Val) -> bool)
    requires StrictWeakOrder(less) && KeepsFirsts(es, was, less)
    ensures HasKey(was, e, less) <==> !FirstOfItsKey(es + [e], |es|, less)
  {
    var all := es + [e];
    if HasKey(was, e, less) {
      var i :| 0 <= i < |was| && Equivalent(was[i], e, less);
      assert was[i] in was;
      var j: nat :| FirstOfItsKey(es, j, less) && was[i] == es[j];
      assert Equivalent(all[j], all[|es|], less);
    }
    if !FirstOfItsKey(all, |es|, less) {
      var k :| 0 <= k < |es| && Equivalent(all[k], all[|es|], less);
      assert HasKey(was, es[k], less);
      var i :| 0 <= i < |was| && Equivalent(was[i], es[k], less);
      EquivalentTrans(was[i], es[k], e, less);
    }
  }
}
