/** The codec as the program runs it: writers that append to a byte vector in place and readers that
    move a shared cursor, proved against the functions of module Codec. An exception is `None`/`false`. */
module CodecIo {
  import opened Bytes
  import opened Codec
  import opened CodecLaws

  /** Bounds-checked cursor over a byte buffer. */
  class ByteReader {
    const bytes: Octets
    var pos: nat
    var remaining: nat

    ghost predicate Valid()
      reads this
    {
      pos + remaining == |bytes|
    }

    ghost function Unread(): Octets
      requires Valid()
      reads this
    {
      bytes[pos..]
    }

    constructor (bytes: Octets)
      ensures Valid() && Unread() == bytes
    {
      this.bytes := bytes;
      pos, remaining := 0, |bytes|;
    }

    /** The next `count` bytes; when there are fewer, nothing is used up. */
    method ReadBytes(count: nat) returns (r: Option<Octets>)
      requires Valid()
      modifies this
      ensures Valid()
      ensures match Take(count, old(Unread()))
        case Ok(block, rest) => r == Some(block) && Unread() == rest
        case Err => r == None && Unread() == old(Unread())
    {
      if count > remaining {
        return None;
      }
      r := Some(bytes[pos..pos + count]);
      assert bytes[pos..pos + count] == bytes[pos..][..count];
      pos := pos + count;
      remaining := remaining - count;
    }

    predicate Empty()
      requires Valid()
      reads this
      ensures Empty() <==> Unread() == []
    {
      remaining == 0
    }
  }

  /** A std::vector<std::uint8_t> that writers append to. */
  class ByteVector {
    var bytes: Octets

    constructor ()
      ensures bytes == []
    {
      bytes := [];
    }

    method AppendBytes(data: Octets)
      modifies this
      ensures bytes == old(bytes) + data
    {
      bytes := bytes + data;
    }
  }

  // ---- Memory blocks ----------------------------------------------------------------------

  function Representation(t: Ty, v: Val): Octets
    requires IsRaw(t) && HasType(t, v)
  {
    if t.Raw? then v.bytes else [if v.flag then 1 else 0]
  }

  /** A contiguous array of raw objects, seen as bytes. */
  function Memory(t: Ty, vs: seq<Val>): Octets
    requires IsRaw(t) && AllHaveType(t, vs)
  {
    if vs == [] then [] else Representation(t, vs[0]) + Memory(t, vs[1..])
  }

  /** The bytes of `n` raw objects in a row. */
  function Span(t: Ty, n: nat): nat
    requires IsRaw(t)
  {
    if n == 0 then 0 else RawWidth(t) + Span(t, n - 1)
  }

  lemma {:induction false} SpanIsProduct(t: Ty, n: nat)
    requires IsRaw(t)
    ensures Span(t, n) == n * RawWidth(t)
  {
    if n == 0 {
    } else {
      SpanIsProduct(t, n - 1);
      assert n * RawWidth(t) == RawWidth(t) + (n - 1) * RawWidth(t);
    }
  }

  /** The objects a block holds after a memcpy into an array; `None` for a bool that is neither 0 nor 1. */
  function Objects(t: Ty, n: nat, block: Octets): Option<seq<Val>>
    requires IsRaw(t) && |block| == Span(t, n)
  {
    if n == 0 then Some([])
    else
      var first := block[..RawWidth(t)];
      if t.Bool? && first[0] > 1 then None
      else match Objects(t, n - 1, block[RawWidth(t)..])
        case None => None
        case Some(vs) => Some([if t.Raw? then RawV(first) else BoolV(first[0] == 1)] + vs)
  }

  /** Copying a block writes what writing its elements one by one would. */
  lemma {:induction false} BlockWrite(t: Ty, vs: seq<Val>)
    requires IsRaw(t) && AllHaveType(t, vs)
    ensures EncAll(t, vs) == Some(Memory(t, vs)) && |Memory(t, vs)| == |vs| * RawWidth(t)
  {
    if vs == [] {
    } else {
      assert HasType(t, vs[0]);
      BlockWrite(t, vs[1..]);
      RawBlockLength(t, vs);
    }
  }

  /** Copying a block reads what reading its elements one by one would. */
  lemma {:induction false} BlockRead(t: Ty, n: nat, s: Octets)
    requires IsRaw(t) && WellFormed(t)
    ensures match Take(Span(t, n), s)
      case Err => DecAll(t, n, s).Err?
      case Ok(block, rest) => match Objects(t, n, block)
        case None => DecAll(t, n, s).Err?
        case Some(vs) => DecAll(t, n, s) == Ok(vs, rest)
  {
    var w := RawWidth(t);
    if n == 0 {
      assert s[0..] == s;
    } else if w <= |s| {
      BlockRead(t, n - 1, s[w..]);
      var later := Span(t, n - 1);
      if w + later <= |s| {
        var block := s[..w + later];
        assert block[..w] == s[..w];
        assert block[w..] == s[w..][..later];
        assert s[w..][later..] == s[w + later..];
      }
    }
  }

  // ---- Writing ----------------------------------------------------------------------------

  method WriteSize(out: ByteVector, n: nat) returns (ok: bool)
    modifies out
    ensures ok == Size(n).Some?
    ensures ok ==> out.bytes == old(out.bytes) + Size(n).value
  {
    ok := n < SIZE_LIMIT;
    if ok {
      out.AppendBytes(U64(n));
    }
  }

  /** `write_value`: appends the encoding of `v`, or throws when the encoding has a part too large for a size_t. */
  method WriteValue(out: ByteVector, t: Ty, v: Val) returns (ok: bool)
    requires WellFormed(t) && HasType(t, v)
    modifies out
    ensures ok == Enc(t, v).Some?
    ensures ok ==> out.bytes == old(out.bytes) + Enc(t, v).value
    decreases t, 4
  {
    if IsCustom(t) {
      var blob := new ByteVector();
      ok := WriteBody(blob, t, v);
      if ok {
        ok := WriteSize(out, |blob.bytes|);
      }
      if ok {
        out.AppendBytes(blob.bytes);
      }
    } else if t.Array? {
      ok := WriteList(out, t.elem, v.elems);
    } else if t.Vector? {
      ok := WriteList(out, t.elem, v.elems);
    } else if t.Str? {
      ok := WriteList(out, t.elem, v.elems);
    } else {
      out.AppendBytes(Representation(t, v));
      ok := true;
    }
  }

  /** `write_array`, `write_vector` and `write_string`: raw elements go out as one block. */
  method WriteList(out: ByteVector, elem: Ty, vs: seq<Val>) returns (ok: bool)
    requires WellFormed(elem) && AllHaveType(elem, vs)
    modifies out
    ensures ok == List(elem, |vs|, EncAll(elem, vs)).Some?
    ensures ok ==> out.bytes == old(out.bytes) + List(elem, |vs|, EncAll(elem, vs)).value
    decreases elem, 6
  {
    ok := WriteSize(out, |vs|);
    if !ok {
      return;
    }
    ok := WriteElements(out, elem, vs);
    CatAppend(old(out.bytes), Size(|vs|), Elements(elem, EncAll(elem, vs)));
  }

  lemma CatAppend(before: Octets, a: Option<Octets>, b: Option<Octets>)
    ensures Cat(a, b).Some? == (a.Some? && b.Some?)
    ensures Cat(a, b).Some? ==> before + Cat(a, b).value == before + a.value + b.value
  {
    if Cat(a, b).Some? {
      assert before + (a.value + b.value) == before + a.value + b.value;
    }
  }

  method WriteElements(out: ByteVector, elem: Ty, vs: seq<Val>) returns (ok: bool)
    requires WellFormed(elem) && AllHaveType(elem, vs)
    modifies out
    ensures ok == Elements(elem, EncAll(elem, vs)).Some?
    ensures ok ==> out.bytes == old(out.bytes) + Elements(elem, EncAll(elem, vs)).value
    decreases elem, 5, 1
  {
    if IsRaw(elem) {
      ok := WriteBlock(out, elem, vs);
    } else {
      ok := WriteAll(out, elem, vs);
    }
  }

  method WriteBlock(out: ByteVector, elem: Ty, vs: seq<Val>) returns (ok: bool)
    requires IsRaw(elem) && AllHaveType(elem, vs)
    modifies out
    ensures ok == Block(EncAll(elem, vs)).Some?
    ensures ok ==> out.bytes == old(out.bytes) + Block(EncAll(elem, vs)).value
  {
    BlockWrite(elem, vs);
    ok := |vs| * RawWidth(elem) < SIZE_LIMIT;
    if ok {
      out.AppendBytes(Memory(elem, vs));
    }
  }

  method WriteAll(out: ByteVector, elem: Ty, vs: seq<Val>) returns (ok: bool)
    requires WellFormed(elem) && AllHaveType(elem, vs)
    modifies out
    ensures ok == EncAll(elem, vs).Some?
    ensures ok ==> out.bytes == old(out.bytes) + EncAll(elem, vs).value
    decreases elem, 5, 0
  {
    ok := true;
    var i := 0;
    assert vs[0..] == vs;
    while i < |vs| && ok
      invariant 0 <= i <= |vs|
      invariant ok ==> EncAll(elem, vs).Some? == EncAll(elem, vs[i..]).Some?
      invariant ok && EncAll(elem, vs).Some? ==>
        old(out.bytes) + EncAll(elem, vs).value == out.bytes + EncAll(elem, vs[i..]).value
      invariant !ok ==> EncAll(elem, vs).None?
    {
      assert vs[i..][0] == vs[i] && vs[i..][1..] == vs[i + 1..];
      ok := WriteValue(out, elem, vs[i]);
      i := i + 1;
    }
  }

  /** The bundled `serializer<T>::to_bytes` functions. */
  method WriteBody(out: ByteVector, t: Ty, v: Val) returns (ok: bool)
    requires IsCustom(t) && WellFormed(t) && HasType(t, v)
    modifies out
    ensures ok == EncBody(t, v).Some?
    ensures ok ==> out.bytes == old(out.bytes) + EncBody(t, v).value
    decreases t, 3
  {
    match t
    case Tuple(items) =>
      ok := WriteEach(out, items, v.parts);
    case Optional(item) =>
      ok := true;
      out.AppendBytes([if v.SomeV? then 1 else 0]);
      if v.SomeV? {
        ok := WriteValue(out, item, v.item);
      }
    case Variant(alts) =>
      ok := WriteSize(out, v.index);
      if ok {
        ok := WriteValue(out, alts[v.index], v.active);
      }
    case Ordered(fields, _) =>
      ok := WriteSize(out, |v.entries|);
      if ok {
        ok := WriteEntries(out, fields, v.entries);
      }
  }

  method WriteEach(out: ByteVector, ts: seq<Ty>, vs: seq<Val>) returns (ok: bool)
    requires (forall u | u in ts :: WellFormed(u)) && HaveTypes(ts, vs)
    modifies out
    ensures ok == EncEach(ts, vs).Some?
    ensures ok ==> out.bytes == old(out.bytes) + EncEach(ts, vs).value
    decreases ts, 0
  {
    ok := true;
    if |ts| > 0 {
      ok := WriteValue(out, ts[0], vs[0]);
      if ok {
        ok := WriteEach(out, ts[1..], vs[1..]);
      }
    }
  }

  method WriteEntries(out: ByteVector, fields: seq<Ty>, entries: seq<Val>) returns (ok: bool)
    requires (forall u | u in fields :: WellFormed(u)) && EntriesHaveTypes(fields, entries)
    modifies out
    ensures ok == EncEntries(fields, entries).Some?
    ensures ok ==> out.bytes == old(out.bytes) + EncEntries(fields, entries).value
    decreases fields, 1
  {
    ok := true;
    var i := 0;
    assert entries[0..] == entries;
    while i < |entries| && ok
      invariant 0 <= i <= |entries|
      invariant ok ==> EncEntries(fields, entries).Some? == EncEntries(fields, entries[i..]).Some?
      invariant ok && EncEntries(fields, entries).Some? ==>
        old(out.bytes) + EncEntries(fields, entries).value == out.bytes + EncEntries(fields, entries[i..]).value
      invariant !ok ==> EncEntries(fields, entries).None?
    {
      assert entries[i..][0] == entries[i] && entries[i..][1..] == entries[i + 1..];
      ok := WriteEach(out, fields, entries[i].parts);
      i := i + 1;
    }
  }

  method Serialize(t: Ty, v: Val) returns (r: Option<Octets>)
    requires WellFormed(t) && HasType(t, v)
    ensures r == ToBytes(t, v)
  {
    var out := new ByteVector();
    var ok := WriteValue(out, t, v);
    assert ok ==> [] + Enc(t, v).value == Enc(t, v).value;
    r := if ok then Some(out.bytes) else None;
  }

  // ---- Reading ----------------------------------------------------------------------------

  method ReadSize(reader: ByteReader) returns (r: Option<nat>)
    requires reader.Valid()
    modifies reader
    ensures reader.Valid()
    ensures match DecSize(old(reader.Unread()))
      case Ok(n, rest) => r == Some(n) && reader.Unread() == rest
      case Err => r == None
  {
    var b := reader.ReadBytes(8);
    r := if b.Some? then Some(FromLE(b.value)) else None;
  }

  /** `read_value`: the value at the cursor, with the cursor moved behind it, or an exception. */
  method ReadValue(t: Ty, reader: ByteReader) returns (r: Option<Val>)
    requires WellFormed(t) && reader.Valid()
    modifies reader
    ensures reader.Valid()
    ensures match Dec(t, old(reader.Unread()))
      case Ok(v, rest) => r == Some(v) && reader.Unread() == rest
      case Err => r == None
    decreases t, 4
  {
    if IsCustom(t) {
      r := ReadCustom(t, reader);
    } else if IsList(t) {
      var n := ReadSize(reader);
      if n.None? || (t.Array? && n.value != t.len) {
        return None;
      }
      r := ReadList(t.elem, n.value, reader);
    } else if t.Bool? {
      var b := reader.ReadBytes(1);
      r := if b.None? || b.value[0] > 1 then None else Some(BoolV(b.value[0] == 1));
    } else {
      var b := reader.ReadBytes(t.width);
      r := if b.Some? then Some(RawV(b.value)) else None;
    }
  }

  method ReadCustom(t: Ty, reader: ByteReader) returns (r: Option<Val>)
    requires IsCustom(t) && WellFormed(t) && reader.Valid()
    modifies reader
    ensures reader.Valid()
    ensures match DecBlob(t, old(reader.Unread()))
      case Ok(v, rest) => r == Some(v) && reader.Unread() == rest
      case Err => r == None
    decreases t, 3
  {
    var n := ReadSize(reader);
    if n.None? {
      return None;
    }
    var blob := reader.ReadBytes(n.value);
    if blob.None? {
      return None;
    }
    var inner := new ByteReader(blob.value);
    r := ReadBody(t, inner);
  }

  /** The bundled `serializer<T>::from_bytes` functions, each with its trailing-bytes check. */
  method ReadBody(t: Ty, reader: ByteReader) returns (r: Option<Val>)
    requires IsCustom(t) && WellFormed(t) && reader.Valid()
    modifies reader
    ensures r == DecBody(t, old(reader.Unread()))
    decreases t, 2
  {
    match t
    case Tuple(items) =>
      var vs := ReadEach(items, reader);
      r := if vs.Some? && reader.Empty() then Some(TupV(vs.value)) else None;
    case Optional(item) =>
      var flag := reader.ReadBytes(1);
      if flag.None? || flag.value[0] > 1 {
        return None;
      }
      if flag.value[0] == 0 {
        return if reader.Empty() then Some(NoneV) else None;
      }
      var v := ReadValue(item, reader);
      r := if v.Some? && reader.Empty() then Some(SomeV(v.value)) else None;
    case Variant(alts) =>
      var index := ReadSize(reader);
      if index.None? || index.value >= |alts| {
        return None;
      }
      var v := ReadValue(alts[index.value], reader);
      r := if v.Some? && reader.Empty() then Some(AltV(index.value, v.value)) else None;
    case Ordered(fields, less) =>
      var n := ReadSize(reader);
      if n.None? {
        return None;
      }
      var entries := ReadEntries(fields, less, n.value, reader);
      r := if entries.Some? && reader.Empty() then Some(OrdV(entries.value)) else None;
  }

  method ReadList(elem: Ty, n: nat, reader: ByteReader) returns (r: Option<Val>)
    requires WellFormed(elem) && reader.Valid()
    modifies reader
    ensures reader.Valid()
    ensures match DecList(elem, n, old(reader.Unread()))
      case Ok(v, rest) => r == Some(v) && reader.Unread() == rest
      case Err => r == None
    decreases elem, 6
  {
    var vs: Option<seq<Val>>;
    if IsRaw(elem) {
      vs := ReadBlock(elem, n, reader);
    } else {
      vs := ReadAll(elem, n, reader);
    }
    r := if vs.Some? then Some(SeqV(vs.value)) else None;
  }

  /** The fast path: the elements are copied out of the buffer as one memory block. */
  method ReadBlock(elem: Ty, n: nat, reader: ByteReader) returns (r: Option<seq<Val>>)
    requires IsRaw(elem) && WellFormed(elem) && reader.Valid()
    modifies reader
    ensures reader.Valid()
    ensures match DecList(elem, n, old(reader.Unread()))
      case Ok(v, rest) => v.SeqV? && r == Some(v.elems) && reader.Unread() == rest
      case Err => r == None
  {
    hide DecAll;
    var size := n * RawWidth(elem);
    if size >= SIZE_LIMIT {
      return None;
    }
    SpanIsProduct(elem, n);
    BlockRead(elem, n, reader.Unread());
    var block := reader.ReadBytes(size);
    r := if block.Some? then Objects(elem, n, block.value) else None;
  }

  method ReadAll(elem: Ty, n: nat, reader: ByteReader) returns (r: Option<seq<Val>>)
    requires WellFormed(elem) && reader.Valid()
    modifies reader
    ensures reader.Valid()
    ensures match DecAll(elem, n, old(reader.Unread()))
      case Ok(vs, rest) => r == Some(vs) && reader.Unread() == rest
      case Err => r == None
    decreases elem, 5
  {
    var vs := [];
    var i := 0;
    assert forall more: seq<Val> :: vs + more == more;
    while i < n
      invariant reader.Valid() && 0 <= i <= n
      invariant match DecAll(elem, n - i, reader.Unread())
        case Ok(more, rest) => DecAll(elem, n, old(reader.Unread())) == Ok(vs + more, rest)
        case Err => DecAll(elem, n, old(reader.Unread())).Err?
    {
      var v := ReadValue(elem, reader);
      if v.None? {
        return None;
      }
      assert forall more :: vs + ([v.value] + more) == vs + [v.value] + more;
      vs := vs + [v.value];
      i := i + 1;
    }
    assert vs + [] == vs;
    r := Some(vs);
  }

  method ReadEach(ts: seq<Ty>, reader: ByteReader) returns (r: Option<seq<Val>>)
    requires (forall u | u in ts :: WellFormed(u)) && reader.Valid()
    modifies reader
    ensures reader.Valid()
    ensures match DecEach(ts, old(reader.Unread()))
      case Ok(vs, rest) => r == Some(vs) && reader.Unread() == rest
      case Err => r == None
    decreases ts, 0
  {
    if |ts| == 0 {
      return Some([]);
    }
    var v := ReadValue(ts[0], reader);
    if v.None? {
      return None;
    }
    var vs := ReadEach(ts[1..], reader);
    r := if vs.Some? then Some([v.value] + vs.value) else None;
  }

  /** The emplace loop of the map and set readers. */
  method ReadEntries(fields: seq<Ty>, less: (Val, Val) -> bool, n: nat, reader: ByteReader)
      returns (r: Option<seq<Val>>)
    requires (forall u | u in fields :: WellFormed(u)) && reader.Valid()
    modifies reader
    ensures reader.Valid()
    ensures match DecEntries(fields, n, old(reader.Unread()))
      case Ok(es, rest) => r == Some(EmplaceAll([], es, less)) && reader.Unread() == rest
      case Err => r == None
    decreases fields, 1
  {
    var result: seq<Val> := [];
    ghost var seen: seq<Val> := [];
    var i := 0;
    assert forall more: seq<Val> :: seen + more == more;
    while i < n
      invariant reader.Valid() && 0 <= i <= n
      invariant result == EmplaceAll([], seen, less)
      invariant match DecEntries(fields, n - i, reader.Unread())
        case Ok(more, rest) => DecEntries(fields, n, old(reader.Unread())) == Ok(seen + more, rest)
        case Err => DecEntries(fields, n, old(reader.Unread())).Err?
    {
      var parts := ReadEach(fields, reader);
      if parts.None? {
        return None;
      }
      EmplaceAppend([], seen, [TupV(parts.value)], less);
      assert forall more :: seen + ([TupV(parts.value)] + more) == seen + [TupV(parts.value)] + more;
      result := Emplace(result, TupV(parts.value), less);
      seen := seen + [TupV(parts.value)];
      i := i + 1;
    }
    assert seen + [] == seen;
    r := Some(result);
  }

  method Deserialize(t: Ty, bytes: Octets) returns (r: Option<Val>)
    requires WellFormed(t)
    ensures r == FromBytes(t, bytes)
  {
    var reader := new ByteReader(bytes);
    r := ReadValue(t, reader);
    if r.Some? && !reader.Empty() {
      r := None;
    }
  }
}
