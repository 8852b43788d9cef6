/** The size of an encoding, counted on the value, and when a value can be encoded at all. */
module Weights {
  import opened Bytes
  import opened Codec

  /** Eight bytes for every length, every blob and every index, one for every flag, and the raw characters. */
  function Weight(t: Ty, v: Val): nat
    requires HasType(t, v)
    decreases t, 2
  {
    match t
    case Raw(width) => width
    case Bool => 1
    case Array(elem, _) => 8 + WeightAll(elem, v.elems)
    case Vector(elem) => 8 + WeightAll(elem, v.elems)
    case Str(elem) => 8 + WeightAll(elem, v.elems)
    case Tuple(items) => 8 + WeightEach(items, v.parts)
    case Optional(item) => if v.NoneV? then 9 else 9 + Weight(item, v.item)
    case Variant(alts) => 16 + Weight(alts[v.index], v.active)
    case Ordered(fields, _) => 16 + WeightEntries(fields, v.entries)
  }

  function WeightAll(t: Ty, vs: seq<Val>): nat
    requires AllHaveType(t, vs)
    decreases t, 3, |vs|
  {
    if vs == [] then 0 else Weight(t, vs[0]) + WeightAll(t, vs[1..])
  }

  function WeightEach(ts: seq<Ty>, vs: seq<Val>): nat
    requires HaveTypes(ts, vs)
    decreases ts, 0
  {
    if ts == [] then 0 else Weight(ts[0], vs[0]) + WeightEach(ts[1..], vs[1..])
  }

  function WeightEntries(fields: seq<Ty>, entries: seq<Val>): nat
    requires EntriesHaveTypes(fields, entries)
    decreases fields, 1, |entries|
  {
    if entries == [] then 0 else WeightEach(fields, entries[0].parts) + WeightEntries(fields, entries[1..])
  }

  /** `body` has this size, and is there unless the size is beyond a std::size_t. */
  predicate Weighs(body: Option<Octets>, size: nat) {
    (body.Some? ==> |body.value| == size) && (size < SIZE_LIMIT ==> body.Some?)
  }

  lemma {:induction false} EncWeighs(t: Ty, v: Val)
    requires WellFormed(t) && HasType(t, v)
    ensures Weighs(Enc(t, v), Weight(t, v)) && Weight(t, v) >= 1
    decreases t, 2
  {
    match t
    case Raw(_) =>
    case Bool =>
    case Array(elem, _) => AllWeighs(elem, v.elems);
    case Vector(elem) => AllWeighs(elem, v.elems);
    case Str(elem) => AllWeighs(elem, v.elems);
    case Tuple(items) => EachWeighs(items, v.parts);
    case Optional(item) =>
      if v.SomeV? {
        EncWeighs(item, v.item);
      }
    case Variant(alts) => EncWeighs(alts[v.index], v.active);
    case Ordered(fields, _) => EntriesWeigh(fields, v.entries);
  }

  lemma {:induction false} AllWeighs(t: Ty, vs: seq<Val>)
    requires WellFormed(t) && AllHaveType(t, vs)
    ensures Weighs(EncAll(t, vs), WeightAll(t, vs)) && WeightAll(t, vs) >= |vs|
    decreases t, 3, |vs|
  {
    hide HasType, Enc, Weight, WellFormed;
    if vs == [] {
    } else {
      EncWeighs(t, vs[0]);
      AllWeighs(t, vs[1..]);
    }
  }

  lemma {:induction false} EachWeighs(ts: seq<Ty>, vs: seq<Val>)
    requires (forall u | u in ts :: WellFormed(u)) && HaveTypes(ts, vs)
    ensures Weighs(EncEach(ts, vs), WeightEach(ts, vs)) && WeightEach(ts, vs) >= |ts|
    decreases ts, 0
  {
    hide HasType, Enc, Weight, WellFormed;
    if ts == [] {
    } else {
      EncWeighs(ts[0], vs[0]);
      EachWeighs(ts[1..], vs[1..]);
    }
  }

  lemma {:induction false} EntriesWeigh(fields: seq<Ty>, entries: seq<Val>)
    requires (forall u | u in fields :: WellFormed(u)) && fields != [] && EntriesHaveTypes(fields, entries)
    ensures Weighs(EncEntries(fields, entries), WeightEntries(fields, entries))
      && WeightEntries(fields, entries) >= |entries|
    decreases fields, 1, |entries|
  {
    hide HasType, HaveTypes, EncEach, WeightEach, WellFormed;
    if entries == [] {
    } else {
      EachWeighs(fields, entries[0].parts);
      EntriesWeigh(fields, entries[1..]);
    }
  }

  /** A value can be encoded into fewer bytes than a std::size_t counts exactly when its weight is smaller, and then its
      encoding has this size. */
  lemma EncodableIff(t: Ty, v: Val, limit: nat)
    requires WellFormed(t) && HasType(t, v) && limit < SIZE_LIMIT
    ensures ToBytes(t, v).Some? && |ToBytes(t, v).value| <= limit <==> Weight(t, v) <= limit
    ensures ToBytes(t, v).Some? ==> |ToBytes(t, v).value| == Weight(t, v)
  {
    hide HasType, Enc, Weight, WellFormed;
    EncWeighs(t, v);
  }
}
