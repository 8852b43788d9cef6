/** The type-directed binary codec as mathematical functions: what write_value appends and what read_value returns. */
module Codec {
  import opened Bytes

  /** The types the codec dispatches on. A std::pair is a `Tuple` of two items; a std::set is an
      `Ordered` of one field and a std::map an `Ordered` of two, key first. */
  datatype Ty =
    | Raw(width: nat)
    | Bool
    | Array(elem: Ty, len: nat)
    | Vector(elem: Ty)
    | Str(elem: Ty)
    | Tuple(items: seq<Ty>)
    | Optional(item: Ty)
    | Variant(alts: seq<Ty>)
    | Ordered(fields: seq<Ty>, less: (Val, Val) -> bool)

  datatype Val =
    | RawV(bytes: Octets)
    | BoolV(flag: bool)
    | SeqV(elems: seq<Val>)
    | TupV(parts: seq<Val>)
    | NoneV
    | SomeV(item: Val)
    | AltV(index: nat, active: Val)
    | OrdV(entries: seq<Val>)

  datatype Option<+T> = None | Some(value: T)

  /** The outcome of a read: a value with the unread bytes, or the exception of a malformed buffer. */
  datatype Parsed<+T> = Ok(value: T, rest: Octets) | Err

  // ---- Types and their values -------------------------------------------------------------

  ghost predicate StrictWeakOrder(less: (Val, Val) -> bool) {
    && (forall a :: !less(a, a))
    && (forall a, b, c :: less(a, b) && less(b, c) ==> less(a, c))
    && (forall a, b, c :: less(a, c) ==> less(a, b) || less(b, c))
  }

  predicate IsList(t: Ty) {
    t.Array? || t.Vector? || t.Str?
  }

  /** Elements that are copied as one memory block. */
  predicate IsRaw(t: Ty) {
    t.Raw? || t.Bool?
  }

  function RawWidth(t: Ty): nat
    requires IsRaw(t)
  {
    if t.Raw? then t.width else 1
  }

  /** Types that C++ can spell: objects have a size, strings hold raw characters, sets and maps
      have one or two fields and a strict weak order. */
  ghost predicate WellFormed(t: Ty) {
    match t
    case Raw(width) => 0 < width < SIZE_LIMIT
    case Bool => true
    case Array(elem, len) => WellFormed(elem) && len < SIZE_LIMIT
    case Vector(elem) => WellFormed(elem)
    case Str(elem) => elem.Raw? && WellFormed(elem)
    case Tuple(items) => forall u | u in items :: WellFormed(u)
    case Optional(item) => WellFormed(item)
    case Variant(alts) => |alts| <= SIZE_LIMIT && forall u | u in alts :: WellFormed(u)
    case Ordered(fields, less) =>
      1 <= |fields| <= 2 && (forall u | u in fields :: WellFormed(u)) && StrictWeakOrder(less)
  }

  /** A type with no std::map and no std::set in it. */
  ghost predicate Plain(t: Ty) {
    match t
    case Raw(_) => true
    case Bool => true
    case Array(elem, _) => Plain(elem)
    case Vector(elem) => Plain(elem)
    case Str(elem) => Plain(elem)
    case Tuple(items) => forall u | u in items :: Plain(u)
    case Optional(item) => Plain(item)
    case Variant(alts) => forall u | u in alts :: Plain(u)
    case Ordered(_, _) => false
  }

  function Key(entry: Val): Val {
    if entry.TupV? && |entry.parts| > 0 then entry.parts[0] else entry
  }

  /** The iteration order of std::map and std::set: every key strictly before all later keys. */
  predicate StrictlySorted(entries: seq<Val>, less: (Val, Val) -> bool) {
    forall i, j | 0 <= i < j < |entries| :: less(Key(entries[i]), Key(entries[j]))
  }

  predicate HasType(t: Ty, v: Val)
    decreases t, 1
  {
    match t
    case Raw(width) => v.RawV? && |v.bytes| == width
    case Bool => v.BoolV?
    case Array(elem, len) => v.SeqV? && |v.elems| == len && AllHaveType(elem, v.elems)
    case Vector(elem) => v.SeqV? && AllHaveType(elem, v.elems)
    case Str(elem) => v.SeqV? && AllHaveType(elem, v.elems)
    case Tuple(items) => v.TupV? && HaveTypes(items, v.parts)
    case Optional(item) => v.NoneV? || (v.SomeV? && HasType(item, v.item))
    case Variant(alts) => v.AltV? && v.index < |alts| && HasType(alts[v.index], v.active)
    case Ordered(fields, less) =>
      v.OrdV? && EntriesHaveTypes(fields, v.entries) && StrictlySorted(v.entries, less)
  }

  predicate AllHaveType(t: Ty, vs: seq<Val>)
    decreases t, 2
  {
    forall v | v in vs :: HasType(t, v)
  }

  predicate HaveTypes(ts: seq<Ty>, vs: seq<Val>)
    decreases ts, 0
  {
    |ts| == |vs| && (ts == [] || (HasType(ts[0], vs[0]) && HaveTypes(ts[1..], vs[1..])))
  }

  predicate EntriesHaveTypes(fields: seq<Ty>, entries: seq<Val>)
    decreases fields, 1
  {
    forall e | e in entries :: e.TupV? && HaveTypes(fields, e.parts)
  }

  // ---- Writing ----------------------------------------------------------------------------

  function Cat(a: Option<Octets>, b: Option<Octets>): Option<Octets> {
    if a.Some? && b.Some? then Some(a.value + b.value) else None
  }

  /** A size_t on the wire; no container has that many elements, so `None` is an allocation failure. */
  function Size(n: nat): Option<Octets> {
    if n < SIZE_LIMIT then Some(U64(n)) else None
  }

  /** checked_byte_size: a memory block must have a size_t number of bytes. */
  function Block(body: Option<Octets>): Option<Octets> {
    if body.Some? && |body.value| < SIZE_LIMIT then body else None
  }

  function Elements(elem: Ty, body: Option<Octets>): Option<Octets> {
    if IsRaw(elem) then Block(body) else body
  }

  function List(elem: Ty, count: nat, body: Option<Octets>): Option<Octets> {
    Cat(Size(count), Elements(elem, body))
  }

  /** A serializer specialisation's blob, prefixed with its size. */
  function Blob(body: Option<Octets>): Option<Octets> {
    if body.None? then None else Cat(Size(|body.value|), body)
  }

  /** What write_value appends for `v`, or `None` when it throws. */
  function Enc(t: Ty, v: Val): Option<Octets>
    requires HasType(t, v)
    decreases t, 2
  {
    match t
    case Raw(_) => Some(v.bytes)
    case Bool => Some([if v.flag then 1 else 0])
    case Array(elem, _) => List(elem, |v.elems|, EncAll(elem, v.elems))
    case Vector(elem) => List(elem, |v.elems|, EncAll(elem, v.elems))
    case Str(elem) => List(elem, |v.elems|, EncAll(elem, v.elems))
    case Tuple(_) => Blob(EncBody(t, v))
    case Optional(_) => Blob(EncBody(t, v))
    case Variant(_) => Blob(EncBody(t, v))
    case Ordered(_, _) => Blob(EncBody(t, v))
  }

  predicate IsCustom(t: Ty) {
    t.Tuple? || t.Optional? || t.Variant? || t.Ordered?
  }

  /** serializer<T>::to_bytes for the bundled specialisations. */
  function EncBody(t: Ty, v: Val): Option<Octets>
    requires IsCustom(t) && HasType(t, v)
    decreases t, 1
  {
    match t
    case Tuple(items) => EncEach(items, v.parts)
    case Optional(item) => if v.NoneV? then Some([0]) else Cat(Some([1]), Enc(item, v.item))
    case Variant(alts) => Cat(Size(v.index), Enc(alts[v.index], v.active))
    case Ordered(fields, _) => Cat(Size(|v.entries|), EncEntries(fields, v.entries))
  }

  function EncAll(t: Ty, vs: seq<Val>): Option<Octets>
    requires AllHaveType(t, vs)
    decreases t, 3, |vs|
  {
    if vs == [] then Some([]) else Cat(Enc(t, vs[0]), EncAll(t, vs[1..]))
  }

  function EncEach(ts: seq<Ty>, vs: seq<Val>): Option<Octets>
    requires HaveTypes(ts, vs)
    decreases ts, 0
  {
    if ts == [] then Some([]) else Cat(Enc(ts[0], vs[0]), EncEach(ts[1..], vs[1..]))
  }

  function EncEntries(fields: seq<Ty>, entries: seq<Val>): Option<Octets>
    requires EntriesHaveTypes(fields, entries)
    decreases fields, 1, |entries|
  {
    if entries == [] then Some([])
    else Cat(EncEach(fields, entries[0].parts), EncEntries(fields, entries[1..]))
  }

  // ---- Reading ----------------------------------------------------------------------------

  /** byte_reader::read_bytes. */
  function Take(n: nat, s: Octets): Parsed<Octets> {
    if n <= |s| then Ok(s[..n], s[n..]) else Err
  }

  function DecSize(s: Octets): (r: Parsed<nat>)
    ensures r.Ok? ==> r.value < SIZE_LIMIT
  {
    Widths();
    match Take(8, s)
    case Ok(b, rest) => Ok(FromLE(b), rest)
    case Err => Err
  }

  /** A bool occupies one byte that is 0 or 1; reading any other byte as a bool is undefined. */
  function DecFlag(s: Octets): Parsed<bool> {
    if s == [] || s[0] > 1 then Err else Ok(s[0] == 1, s[1..])
  }

  /** What read_value returns on `s`. */
  function Dec(t: Ty, s: Octets): Parsed<Val>
    decreases t, 2
  {
    match t
    case Raw(width) => (match Take(width, s) case Ok(b, rest) => Ok(RawV(b), rest) case Err => Err)
    case Bool => (match DecFlag(s) case Ok(flag, rest) => Ok(BoolV(flag), rest) case Err => Err)
    case Array(elem, len) => (match DecSize(s)
      case Ok(n, body) => if n != len then Err else DecList(elem, n, body)
      case Err => Err)
    case Vector(elem) => (match DecSize(s) case Ok(n, body) => DecList(elem, n, body) case Err => Err)
    case Str(elem) => (match DecSize(s) case Ok(n, body) => DecList(elem, n, body) case Err => Err)
    case Tuple(_) => DecBlob(t, s)
    case Optional(_) => DecBlob(t, s)
    case Variant(_) => DecBlob(t, s)
    case Ordered(_, _) => DecBlob(t, s)
  }

  function DecList(elem: Ty, n: nat, s: Octets): Parsed<Val>
    decreases elem, 4
  {
    if IsRaw(elem) && n * RawWidth(elem) >= SIZE_LIMIT then Err
    else match DecAll(elem, n, s)
      case Ok(vs, rest) => Ok(SeqV(vs), rest)
      case Err => Err
  }

  function DecBlob(t: Ty, s: Octets): Parsed<Val>
    requires IsCustom(t)
    decreases t, 1
  {
    match DecSize(s)
    case Err => Err
    case Ok(n, body) => match Take(n, body)
      case Err => Err
      case Ok(blob, rest) => match DecBody(t, blob)
        case None => Err
        case Some(v) => Ok(v, rest)
  }

  /** serializer<T>::from_bytes: the whole blob must be used up. */
  function DecBody(t: Ty, blob: Octets): Option<Val>
    requires IsCustom(t)
    decreases t, 0
  {
    match t
    case Tuple(items) => (match DecEach(items, blob)
      case Ok(vs, rest) => if rest == [] then Some(TupV(vs)) else None
      case Err => None)
    case Optional(item) => (match DecFlag(blob)
      case Err => None
      case Ok(flag, body) =>
        if !flag then (if body == [] then Some(NoneV) else None)
        else match Dec(item, body)
          case Ok(v, rest) => if rest == [] then Some(SomeV(v)) else None
          case Err => None)
    case Variant(alts) => (match DecSize(blob)
      case Err => None
      case Ok(index, body) =>
        if index >= |alts| then None
        else match Dec(alts[index], body)
          case Ok(v, rest) => if rest == [] then Some(AltV(index, v)) else None
          case Err => None)
    case Ordered(fields, less) => (match DecSize(blob)
      case Err => None
      case Ok(n, body) => match DecEntries(fields, n, body)
        case Ok(entries, rest) => if rest == [] then Some(OrdV(EmplaceAll([], entries, less))) else None
        case Err => None)
  }

  function DecAll(t: Ty, n: nat, s: Octets): Parsed<seq<Val>>
    decreases t, 3, n
  {
    if n == 0 then Ok([], s)
    else match Dec(t, s)
      case Err => Err
      case Ok(v, rest) => match DecAll(t, n - 1, rest)
        case Ok(vs, rest') => Ok([v] + vs, rest')
        case Err => Err
  }

  function DecEach(ts: seq<Ty>, s: Octets): Parsed<seq<Val>>
    decreases ts, 0
  {
    if ts == [] then Ok([], s)
    else match Dec(ts[0], s)
      case Err => Err
      case Ok(v, rest) => match DecEach(ts[1..], rest)
        case Ok(vs, rest') => Ok([v] + vs, rest')
        case Err => Err
  }

  /** The entries in the order they stand in the blob, before the container orders them. */
  function DecEntries(fields: seq<Ty>, n: nat, s: Octets): Parsed<seq<Val>>
    decreases fields, 1, n
  {
    if n == 0 then Ok([], s)
    else match DecEach(fields, s)
      case Err => Err
      case Ok(parts, rest) => match DecEntries(fields, n - 1, rest)
        case Ok(es, rest') => Ok([TupV(parts)] + es, rest')
        case Err => Err
  }

  /** std::map::emplace: an entry whose key is already present is dropped. */
  function Emplace(entries: seq<Val>, e: Val, less: (Val, Val) -> bool): seq<Val> {
    if entries == [] then [e]
    else if less(Key(e), Key(entries[0])) then [e] + entries
    else if less(Key(entries[0]), Key(e)) then [entries[0]] + Emplace(entries[1..], e, less)
    else entries
  }

  function EmplaceAll(entries: seq<Val>, more: seq<Val>, less: (Val, Val) -> bool): seq<Val>
    decreases |more|
  {
    if more == [] then entries else EmplaceAll(Emplace(entries, more[0], less), more[1..], less)
  }

  // ---- The public API ---------------------------------------------------------------------

  function ToBytes(t: Ty, v: Val): Option<Octets>
    requires HasType(t, v)
  {
    Enc(t, v)
  }

  function FromBytes(t: Ty, bytes: Octets): Option<Val> {
    match Dec(t, bytes)
    case Ok(v, rest) => if rest == [] then Some(v) else None
    case Err => None
  }
}
