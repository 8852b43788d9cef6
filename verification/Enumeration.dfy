/** How the argument tuples of a run are enumerated: stateful providers, the recursive grid and the zip. */
module Enumeration {
  import opened Codec
  import opened WorkerSpec

  /** Where an endless walk around `n` items stands after `k` steps. */
  function Wrap(k: nat, n: nat): (r: nat)
    requires n > 0
    ensures r < n && r == k % n
  {
    if k < n then k
    else
      LessOneRound(k, n);
      Wrap(k - n, n)
  }

  lemma LessOneRound(k: nat, n: nat)
    requires 0 < n <= k
    ensures (k - n) % n == k % n
  {
    var a, b := k / n, (k - n) / n;
    Multiple(n, a, b + 1);
    assert n * (a - b - 1) == (k - n) % n - k % n;
    if a - b - 1 != 0 {
      NoMultiple(n, a - b - 1);
    }
  }

  lemma Multiple(n: nat, a: int, b: int)
    ensures n * a - n * b == n * (a - b) && n * b == n * (b - 1) + n
  {}

  lemma {:induction false} NoMultiple(n: int, d: int)
    requires n >= 1 && d != 0
    ensures n * d >= n || n * d <= -n
    decreases if d >= 0 then d else -d
  {
    if d == 1 || d == -1 {
    } else if d > 0 {
      NoMultiple(n, d - 1);
      assert n * d == n * (d - 1) + n;
    } else {
      NoMultiple(n, d + 1);
      assert n * d == n * (d + 1) - n;
    }
  }

  /** An argument provider over a non-empty iterable object, wrapping around at its end. */
  class IterableProvider {
    const items: seq<Val>
    const maxIdx: nat
    var idx: nat
    var cursor: nat

    ghost predicate Valid()
      reads this
    {
      items != [] && cursor < |items|
    }

    constructor (maxIdx: nat, items: seq<Val>)
      requires items != []
      ensures Valid() && this.items == items && this.maxIdx == maxIdx && idx == 0 && cursor == 0
    {
      this.items, this.maxIdx, idx, cursor := items, maxIdx, 0, 0;
    }

    method Next() returns (v: Val)
      requires Valid()
      modifies this`cursor
      ensures Valid() && v == items[old(cursor)] && cursor == (old(cursor) + 1) % |items|
    {
      v := items[cursor];
      cursor := cursor + 1;
      if cursor == |items| {
        cursor := 0;
      }
    }

    /** `None` stands for the exhaustion signal. */
    method Iter() returns (v: Option<Val>)
      requires Valid()
      modifies this
      ensures Valid() && (v.None? <==> old(idx) >= maxIdx)
      ensures v.None? ==> idx == old(idx) && cursor == old(cursor)
      ensures v.Some? ==>
        v.value == items[old(cursor)] && idx == old(idx) + 1 && cursor == Wrap(old(cursor) + 1, |items|)
    {
      if idx >= maxIdx {
        return None;
      }
      var next := Next();
      idx := idx + 1;
      v := Some(next);
    }

    method Reset()
      requires Valid()
      modifies this
      ensures Valid() && idx == 0 && cursor == 0
    {
      idx := 0;
      cursor := 0;
    }

    /** The values it gives after a reset. */
    function Column(): (vs: seq<Val>)
      requires items != []
      ensures |vs| == maxIdx && forall k | 0 <= k < maxIdx :: vs[k] == items[k % |items|]
    {
      seq(maxIdx, k requires 0 <= k => items[Wrap(k, |items|)])
    }
  }

  /** A provider over an empty object cannot be made. */
  method MakeProvider(maxIdx: nat, items: seq<Val>) returns (p: IterableProvider?)
    ensures p == null <==> items == []
    ensures p != null ==> fresh(p) && p.Valid() && p.items == items && p.maxIdx == maxIdx && p.idx == 0 && p.cursor == 0
  {
    if items == [] {
      return null;
    }
    p := new IterableProvider(maxIdx, items);
  }

  /** Where an enumerated tuple goes: to submit() of the pool, or to a call in the own process, whose std::exception is
      caught and recorded. */
  datatype Mode = Isolated | OwnProcess(target: Val -> Outcome)

  /** The calls of a run in order; call k has task id k + 1. */
  class Sink {
    const mode: Mode
    var calls: seq<Val>
    var results: seq<TaskResult>

    ghost predicate Valid()
      reads this
    {
      results == if mode.OwnProcess? then InProcess(mode.target, calls) else []
    }

    constructor (mode: Mode)
      ensures Valid() && calls == [] && this.mode == mode
    {
      this.mode, calls, results := mode, [], [];
    }

    method Submit(args: Val) returns (id: nat)
      requires Valid()
      modifies this
      ensures Valid() && calls == old(calls) + [args] && id == |calls|
    {
      id := |calls| + 1;
      if mode.OwnProcess? {
        InProcessNext(mode.target, calls, args);
        results := results + [ResultOf(id, args, mode.target(args))];
      }
      calls := calls + [args];
    }
  }

  // ---- The Cartesian product --------------------------------------------------------------

  /** `v` put before every tail. */
  function Prepend(v: Val, tails: seq<seq<Val>>): (r: seq<seq<Val>>)
    ensures |r| == |tails|
  {
    seq(|tails|, k requires 0 <= k < |tails| => [v] + tails[k])
  }

  function Spread(vs: seq<Val>, tails: seq<seq<Val>>): seq<seq<Val>> {
    if vs == [] then [] else Spread(vs[..|vs| - 1], tails) + Prepend(vs[|vs| - 1], tails)
  }

  /** The rows of the product in lexicographic order: the last column runs fastest. */
  function Product(columns: seq<seq<Val>>): seq<seq<Val>> {
    if columns == [] then [[]] else Spread(columns[0], Product(columns[1..]))
  }

  function Volume(columns: seq<seq<Val>>): nat {
    if columns == [] then 1 else |columns[0]| * Volume(columns[1..])
  }

  lemma {:induction false} SpreadSize(vs: seq<Val>, tails: seq<seq<Val>>)
    ensures |Spread(vs, tails)| == |vs| * |tails|
  {
    if vs == [] {
    } else {
      var front := vs[..|vs| - 1];
      SpreadSize(front, tails);
      assert |vs| * |tails| == |front| * |tails| + |tails|;
    }
  }

  lemma {:induction false} ProductSize(columns: seq<seq<Val>>)
    ensures |Product(columns)| == Volume(columns)
  {
    if columns == [] {
    } else {
      ProductSize(columns[1..]);
      SpreadSize(columns[0], Product(columns[1..]));
    }
  }

  lemma {:induction false} SpreadAt(vs: seq<Val>, tails: seq<seq<Val>>, a: nat, b: nat)
    requires a < |vs| && b < |tails|
    ensures a * |tails| + b < |Spread(vs, tails)| && Spread(vs, tails)[a * |tails| + b] == [vs[a]] + tails[b]
  {
    var front := vs[..|vs| - 1];
    SpreadSize(front, tails);
    if a == |vs| - 1 {
      assert |Spread(front, tails)| == a * |tails|;
    } else {
      SpreadAt(front, tails, a, b);
    }
  }

  /** Row n is found by mixed-radix division: the first value by the quotient, the others by the remainder. */
  lemma ProductAt(columns: seq<seq<Val>>, a: nat, b: nat)
    requires columns != [] && a < |columns[0]| && b < Volume(columns[1..])
    ensures b < |Product(columns[1..])| && a * Volume(columns[1..]) + b < |Product(columns)|
    ensures Product(columns)[a * Volume(columns[1..]) + b] == [columns[0][a]] + Product(columns[1..])[b]
  {
    ProductSize(columns[1..]);
    SpreadAt(columns[0], Product(columns[1..]), a, b);
  }

  predicate Picks(columns: seq<seq<Val>>, row: seq<Val>) {
    |row| == |columns| && forall j | 0 <= j < |columns| :: row[j] in columns[j]
  }

  lemma {:induction false} SpreadMember(vs: seq<Val>, tails: seq<seq<Val>>, row: seq<Val>)
    ensures row in Spread(vs, tails) <==> row != [] && row[0] in vs && row[1..] in tails
  {
    if vs == [] {
    } else {
      var front, last := vs[..|vs| - 1], vs[|vs| - 1];
      SpreadMember(front, tails, row);
      assert vs == front + [last];
      assert row in Prepend(last, tails) <==> row != [] && row[0] == last && row[1..] in tails by {
        PrependMember(last, tails, row);
      }
    }
  }

  lemma PrependMember(v: Val, tails: seq<seq<Val>>, row: seq<Val>)
    ensures row in Prepend(v, tails) <==> row != [] && row[0] == v && row[1..] in tails
  {
    if row in Prepend(v, tails) {
      var k :| 0 <= k < |tails| && Prepend(v, tails)[k] == row;
      assert row[1..] == tails[k];
    }
    if row != [] && row[0] == v && row[1..] in tails {
      var k :| 0 <= k < |tails| && tails[k] == row[1..];
      assert Prepend(v, tails)[k] == row;
    }
  }

  /** The rows are exactly the ways to pick one value from every column. */
  lemma {:induction false} ProductMember(columns: seq<seq<Val>>, row: seq<Val>)
    ensures row in Product(columns) <==> Picks(columns, row)
  {
    if columns == [] {
      assert row in [[]] <==> row == [];
    } else {
      SpreadMember(columns[0], Product(columns[1..]), row);
      if row != [] {
        ProductMember(columns[1..], row[1..]);
        PicksFirst(columns, row);
      }
    }
  }

  lemma PicksFirst(columns: seq<seq<Val>>, row: seq<Val>)
    requires columns != [] && row != []
    ensures Picks(columns, row) <==> row[0] in columns[0] && Picks(columns[1..], row[1..])
  {
    if row[0] in columns[0] && Picks(columns[1..], row[1..]) {
      forall j | 0 <= j < |columns|
        ensures row[j] in columns[j]
      {
        assert j > 0 ==> row[j] == row[1..][j - 1] && columns[j] == columns[1..][j - 1];
      }
    }
    if Picks(columns, row) {
      forall j | 0 <= j < |columns[1..]|
        ensures row[1..][j] in columns[1..][j]
      {
        assert row[1..][j] == row[j + 1] && columns[1..][j] == columns[j + 1];
      }
    }
  }

  // ---- The grid ---------------------------------------------------------------------------

  /** One call per row, with `prefix` before it. */
  function Tuples(prefix: seq<Val>, rows: seq<seq<Val>>): (r: seq<Val>)
    ensures |r| == |rows|
  {
    seq(|rows|, k requires 0 <= k < |rows| => TupV(prefix + rows[k]))
  }

  lemma TuplesPrepend(prefix: seq<Val>, v: Val, tails: seq<seq<Val>>)
    ensures Tuples(prefix, Prepend(v, tails)) == Tuples(prefix + [v], tails)
  {
    forall k | 0 <= k < |tails|
      ensures prefix + ([v] + tails[k]) == prefix + [v] + tails[k]
    {}
  }

  lemma TuplesAppend(prefix: seq<Val>, a: seq<seq<Val>>, b: seq<seq<Val>>)
    ensures Tuples(prefix, a + b) == Tuples(prefix, a) + Tuples(prefix, b)
  {}

  /** The calls of the first `k` values of the first column. */
  function FirstTuples(prefix: seq<Val>, column: seq<Val>, tails: seq<seq<Val>>, k: nat): seq<Val>
    requires k <= |column|
  {
    Tuples(prefix, Spread(column[..k], tails))
  }

  /** One more value of the first column. */
  lemma GridTurn(before: seq<Val>, prefix: seq<Val>, column: seq<Val>, k: nat, tails: seq<seq<Val>>)
    requires k < |column|
    ensures before + FirstTuples(prefix, column, tails, k + 1)
      == before + FirstTuples(prefix, column, tails, k) + Tuples(prefix + [column[k]], tails)
  {
    assert column[..k + 1][..k] == column[..k];
    TuplesAppend(prefix, Spread(column[..k], tails), Prepend(column[k], tails));
    TuplesPrepend(prefix, column[k], tails);
  }

  lemma AllTuples(before: seq<Val>, prefix: seq<Val>, column: seq<Val>, tails: seq<seq<Val>>)
    ensures before + FirstTuples(prefix, column, tails, 0) == before
    ensures FirstTuples(prefix, column, tails, |column|) == Tuples(prefix, Spread(column, tails))
  {
    assert column[..|column|] == column;
  }

  ghost predicate Distinct(ps: seq<IterableProvider>) {
    forall i, j | 0 <= i < j < |ps| :: ps[i] != ps[j]
  }

  ghost predicate AllValid(ps: seq<IterableProvider>)
    reads ps
  {
    forall i | 0 <= i < |ps| :: ps[i].Valid()
  }

  function Columns(ps: seq<IterableProvider>): (cs: seq<seq<Val>>)
    requires forall i | 0 <= i < |ps| :: ps[i].items != []
    ensures |cs| == |ps|
  {
    seq(|ps|, i requires 0 <= i < |ps| => ps[i].Column())
  }

  /** The values in the filled part of the storage. */
  function Values(storage: seq<Option<Val>>): seq<Val>
    requires forall k | 0 <= k < |storage| :: storage[k].Some?
  {
    seq(|storage|, k requires 0 <= k < |storage| => storage[k].value)
  }

  // ---- Providers at one moment ------------------------------------------------------------

  /** A provider at one moment. */
  datatype Feed = Feed(items: seq<Val>, max: nat, idx: nat, cursor: nat) {
    predicate Valid() {
      cursor < |items|
    }

    function Left(): nat {
      if idx < max then max - idx else 0
    }

    /** After `n` values have been taken. */
    function Ahead(n: nat): (f: Feed)
      requires Valid()
      ensures f.Valid()
    {
      Feed(items, max, idx + n, Wrap(cursor + n, |items|))
    }

    /** The n-th value from here. */
    function At(n: nat): Val
      requires Valid()
    {
      items[Wrap(cursor + n, |items|)]
    }
  }

  predicate FeedsValid(fs: seq<Feed>) {
    forall j | 0 <= j < |fs| :: fs[j].Valid()
  }

  function FeedsOf(ps: seq<IterableProvider>): (fs: seq<Feed>)
    reads ps
    ensures |fs| == |ps|
  {
    if ps == [] then [] else [Feed(ps[0].items, ps[0].maxIdx, ps[0].idx, ps[0].cursor)] + FeedsOf(ps[1..])
  }

  lemma {:induction false} NextCursor(k: nat, n: nat)
    requires n > 0
    ensures Wrap(Wrap(k, n) + 1, n) == Wrap(k + 1, n)
    ensures k < n ==> Wrap(k, n) == k
  {
    if k >= n {
      NextCursor(k - n, n);
    }
  }

  lemma AheadAgain(f: Feed, n: nat, m: nat)
    requires f.Valid() && m <= 1
    ensures f.Ahead(n).Ahead(m) == f.Ahead(n + m) && f.Ahead(0) == f && f.Ahead(n).At(0) == f.At(n)
  {
    hide Wrap;
    NextCursor(f.cursor, |f.items|);
    NextCursor(f.Ahead(n).cursor, |f.items|);
    NextCursor(f.cursor + n, |f.items|);
  }

  lemma {:induction false} FeedsAre(ps: seq<IterableProvider>)
    ensures forall j | 0 <= j < |ps| :: FeedsOf(ps)[j] == Feed(ps[j].items, ps[j].maxIdx, ps[j].idx, ps[j].cursor)
  {
    if ps == [] {
    } else {
      FeedsAre(ps[1..]);
      forall j | 0 <= j < |ps|
        ensures FeedsOf(ps)[j] == Feed(ps[j].items, ps[j].maxIdx, ps[j].idx, ps[j].cursor)
      {
        assert j > 0 ==> FeedsOf(ps)[j] == FeedsOf(ps[1..])[j - 1] && ps[j] == ps[1..][j - 1];
      }
    }
  }

  lemma AllThere(ps: seq<IterableProvider>)
    requires AllValid(ps)
    ensures forall k | 0 <= k < |ps| :: ps[k].items != []
  {}

  lemma FeedIs(ps: seq<IterableProvider>, i: nat)
    requires i < |ps|
    ensures FeedsOf(ps)[i].items == ps[i].items && FeedsOf(ps)[i].max == ps[i].maxIdx
  {
    FeedsAre(ps);
  }

  lemma FeedsAreValid(ps: seq<IterableProvider>)
    requires AllValid(ps)
    ensures FeedsValid(FeedsOf(ps))
  {
    FeedsAre(ps);
  }

  lemma FeedStep(f: Feed)
    requires f.Valid()
    ensures f.Ahead(1) == Feed(f.items, f.max, f.idx + 1, Wrap(f.cursor + 1, |f.items|)) && f.At(0) == f.items[f.cursor]
  {}

  /** iter() of one provider, seen among the others. */
  method IterAt(ps: seq<IterableProvider>, i: nat) returns (v: Option<Val>)
    requires i < |ps| && Distinct(ps) && AllValid(ps)
    modifies ps[i]
    ensures AllValid(ps) && FeedsValid(old(FeedsOf(ps)))
    ensures var fs := old(FeedsOf(ps));
      if fs[i].Left() == 0 then v.None? && FeedsOf(ps) == fs
      else v == Some(fs[i].At(0)) && FeedsOf(ps) == fs[i := fs[i].Ahead(1)]
  {
    hide Wrap, FeedsOf, Feed.Ahead, Feed.At;
    ghost var fs := FeedsOf(ps);
    FeedsAre(ps);
    FeedStep(fs[i]);
    assert forall j | 0 <= j < |ps| && j != i :: ps[j] != ps[i];
    v := ps[i].Iter();
    FeedsAre(ps);
    if v.None? {
      assert FeedsOf(ps) == fs;
    } else {
      assert FeedsOf(ps) == fs[i := fs[i].Ahead(1)];
    }
  }

  method ResetAt(ps: seq<IterableProvider>, i: nat)
    requires i < |ps| && Distinct(ps) && AllValid(ps)
    modifies ps[i]
    ensures AllValid(ps) && FeedsOf(ps) == old(FeedsOf(ps))[i := Start(old(FeedsOf(ps))[i], 0)]
  {
    hide Wrap, FeedsOf;
    NextCursor(0, |ps[i].items|);
    FeedsAre(ps);
    assert forall j | 0 <= j < |ps| && j != i :: ps[j] != ps[i];
    ps[i].Reset();
    FeedsAre(ps);
    assert FeedsOf(ps) == old(FeedsOf(ps))[i := Start(old(FeedsOf(ps))[i], 0)];
  }

  /** A provider `k` values after a reset. */
  function Start(f: Feed, k: nat): Feed {
    if f.items == [] then f else Feed(f.items, f.max, k, Wrap(k, |f.items|))
  }

  /** The traversal comes to provider `j` from provider `i`: none between them is without values. */
  predicate Reached(fs: seq<Feed>, i: nat, j: nat) {
    forall m | i <= m < j && m < |fs| :: fs[m].max > 0
  }

  /** Every provider that is reached from `i` stands where a reset leaves it, the others where they stood. */
  function Rewound(fs: seq<Feed>, i: nat): (r: seq<Feed>)
    ensures |r| == |fs|
  {
    seq(|fs|, j requires 0 <= j < |fs| => if i <= j && Reached(fs, i, j) then Start(fs[j], 0) else fs[j])
  }

  /** The providers when the loop of level `i` has taken `k` values. */
  function InLoop(fs: seq<Feed>, i: nat, k: nat): (r: seq<Feed>)
    requires i < |fs|
    ensures |r| == |fs| && r[i] == Start(fs[i], k)
  {
    (if k == 0 then fs else Rewound(fs, i + 1))[i := Start(fs[i], k)]
  }

  /** One turn of the loop of level `i`: its provider gives a value, and then the levels below wind their providers
      back. */
  lemma LoopTurn(fs: seq<Feed>, i: nat, k: nat)
    requires FeedsValid(fs) && i < |fs|
    ensures InLoop(fs, i, k)[i := InLoop(fs, i, k)[i].Ahead(1)] == InLoop(fs, i, k)[i := Start(fs[i], k + 1)]
    ensures Rewound(InLoop(fs, i, k)[i := Start(fs[i], k + 1)], i + 1) == InLoop(fs, i, k + 1)
    ensures InLoop(fs, i, k)[i].At(0) == fs[i].items[Wrap(k, |fs[i].items|)]
  {
    NextCursor(k, |fs[i].items|);
    NextCursor(Wrap(k, |fs[i].items|), |fs[i].items|);
    hide Wrap;
    var now := InLoop(fs, i, k)[i := Start(fs[i], k + 1)];
    assert forall j | 0 <= j < |fs| :: now[j].items == fs[j].items && now[j].max == fs[j].max;
    var n := i + 1;
    assert forall j | n <= j < |fs| :: Reached(now, n, j) <==> Reached(fs, n, j);
  }

  /** After the last turn the provider of level `i` is reset; the ones below it have been reached if it gave a value. */
  lemma LoopDone(fs: seq<Feed>, i: nat)
    requires i < |fs|
    ensures InLoop(fs, i, fs[i].max)[i := Start(Start(fs[i], fs[i].max), 0)] == Rewound(fs, i)
    ensures Rewound(fs, |fs|) == fs && InLoop(fs, i, 0) == fs[i := Start(fs[i], 0)]
  {
    hide Wrap;
    forall j | i < j < |fs|
      ensures Reached(fs, i, j) <==> fs[i].max > 0 && Reached(fs, i + 1, j)
    {
      assert Reached(fs, i, j) ==> fs[i].max > 0;
    }
  }

  /** Level `i` of the recursive traversal: for every value of provider `i`, everything below it. No optional is read
      before it has been filled. The providers that are reached end where a reset leaves them; the others stay put. */
  method GridImpl(i: nat, ps: seq<IterableProvider>, storage: array<Option<Val>>, sink: Sink)
    requires i < |ps| == storage.Length && Distinct(ps) && AllValid(ps) && sink.Valid()
    requires forall k | 0 <= k < i :: storage[k].Some?
    modifies ps[i..], storage, sink
    ensures AllValid(ps) && sink.Valid() && storage[..i] == old(storage[..i])
    ensures sink.calls == old(sink.calls) + Tuples(Values(old(storage[..i])), Product(Columns(ps[i..])))
    ensures FeedsOf(ps) == Rewound(old(FeedsOf(ps)), i)
    decreases |ps| - i, 2
  {
    hide Product, Spread, Tuples, FirstTuples, Columns, Values, Wrap, InProcess, FeedsOf, Rewound, InLoop, AllValid,
      Distinct, Start, IterableProvider.Valid;
    AllThere(ps);
    FeedIs(ps, i);
    ghost var prefix := Values(storage[..i]);
    ghost var column, tails := ps[i].Column(), Product(Columns(ps[i + 1..]));
    ghost var before, fs := sink.calls, FeedsOf(ps);
    FeedsAreValid(ps);
    SplitColumns(ps, i);
    AllTuples(before, prefix, column, tails);
    LoopDone(fs, i);
    ResetAt(ps, i);
    ghost var k := 0;
    var more := true;
    while more
      invariant AllValid(ps) && sink.Valid() && k <= ps[i].maxIdx
      invariant FeedsOf(ps) == if more then InLoop(fs, i, k) else Rewound(fs, i)
      invariant storage[..i] == old(storage[..i]) && (!more ==> k == |column|)
      invariant sink.calls == before + FirstTuples(prefix, column, tails, k)
      decreases more, ps[i].maxIdx - k
    {
      more := GridRound(i, ps, storage, sink, fs, k);
      if more {
        GridTurn(before, prefix, column, k, tails);
        k := k + 1;
      }
    }
  }

  /** One turn of the loop of level `i`: its provider gives value `k` and everything below it is enumerated, or it has
      no more and is reset. */
  method GridRound(i: nat, ps: seq<IterableProvider>, storage: array<Option<Val>>, sink: Sink,
                   ghost fs: seq<Feed>, ghost k: nat) returns (more: bool)
    requires i < |ps| == storage.Length && Distinct(ps) && AllValid(ps) && sink.Valid()
    requires forall k | 0 <= k < i :: storage[k].Some?
    requires FeedsValid(fs) && |fs| == |ps| && fs[i].items == ps[i].items && fs[i].max == ps[i].maxIdx
    requires k <= ps[i].maxIdx && FeedsOf(ps) == InLoop(fs, i, k)
    modifies ps[i..], storage, sink
    ensures AllValid(ps) && sink.Valid() && storage[..i] == old(storage[..i]) && (more <==> k < ps[i].maxIdx)
    ensures sink.calls == old(sink.calls) + if !more then [] else
      Tuples(Values(old(storage[..i])) + [ps[i].Column()[k]], Product(Columns(ps[i + 1..])))
    ensures FeedsOf(ps) == if more then InLoop(fs, i, k + 1) else Rewound(fs, i)
    decreases |ps| - i, 1
  {
    hide Product, Tuples, Columns, Values, Wrap, InProcess, FeedsOf, Rewound, Feed.Ahead, InLoop, AllValid, Distinct;
    AllThere(ps);
    LoopTurn(fs, i, k);
    LoopDone(fs, i);
    var v := IterAt(ps, i);
    if v.None? {
      ResetAt(ps, i);
      return false;
    }
    GridBelow(i, ps, storage, sink, v.value);
    more := true;
  }

  /** The loop body: one value of provider `i`, and everything below it. */
  method GridBelow(i: nat, ps: seq<IterableProvider>, storage: array<Option<Val>>, sink: Sink, v: Val)
    requires i < |ps| == storage.Length && Distinct(ps) && AllValid(ps) && sink.Valid()
    requires forall k | 0 <= k < i :: storage[k].Some?
    modifies ps[i + 1..], storage, sink
    ensures AllValid(ps) && sink.Valid() && storage[..i] == old(storage[..i])
    ensures sink.calls == old(sink.calls) + Tuples(Values(old(storage[..i])) + [v], Product(Columns(ps[i + 1..])))
    ensures FeedsOf(ps) == Rewound(old(FeedsOf(ps)), i + 1)
    decreases |ps| - i, 0
  {
    hide Product, Tuples, Columns, Spread, InProcess, FeedsOf, Rewound, AllValid, Distinct, Wrap, InLoop;
    AllThere(ps);
    ghost var prefix := Values(storage[..i]);
    LoopDone(FeedsOf(ps), i);
    storage[i] := Some(v);
    assert storage[..i + 1] == storage[..i] + [Some(v)];
    assert Values(storage[..i + 1]) == prefix + [v];
    if i + 1 == |ps| {
      assert storage[..] == storage[..i + 1];
      var args := Materialize(storage);
      var id := sink.Submit(args);
      LastLevel(ps, prefix + [v]);
    } else {
      GridImpl(i + 1, ps, storage, sink);
      assert storage[..i] == storage[..i + 1][..i];
    }
  }

  lemma LastLevel(ps: seq<IterableProvider>, row: seq<Val>)
    requires forall k | 0 <= k < |ps| :: ps[k].items != []
    ensures Tuples(row, Product(Columns(ps[|ps|..]))) == [TupV(row)]
  {
    assert row + [] == row;
  }

  lemma SplitColumns(ps: seq<IterableProvider>, i: nat)
    requires i < |ps| && forall k | 0 <= k < |ps| :: ps[k].items != []
    ensures Product(Columns(ps[i..])) == Spread(ps[i].Column(), Product(Columns(ps[i + 1..])))
  {
    assert Columns(ps[i..])[1..] == Columns(ps[i + 1..]);
  }

  /** Every optional holds a value when it is read. */
  method Materialize(storage: array<Option<Val>>) returns (args: Val)
    requires forall k | 0 <= k < storage.Length :: storage[k].Some?
    ensures args == TupV(Values(storage[..]))
  {
    var vs := [];
    var k := 0;
    while k < storage.Length
      invariant 0 <= k <= storage.Length && vs == Values(storage[..k])
    {
      assert storage[..k + 1] == storage[..k] + [storage[k]];
      vs := vs + [storage[k].value];
      k := k + 1;
    }
    assert storage[..storage.Length] == storage[..];
    args := TupV(vs);
  }

  /** Grid mode: one call for every row of the product, in order, whatever the providers had given out before; a target
      without arguments is called once. */
  method RunGrid(ps: seq<IterableProvider>, sink: Sink)
    requires Distinct(ps) && AllValid(ps) && sink.Valid()
    modifies ps, sink
    ensures AllValid(ps) && sink.Valid() && sink.calls == old(sink.calls) + Tuples([], Product(Columns(ps)))
    ensures FeedsOf(ps) == Rewound(old(FeedsOf(ps)), 0)
  {
    if |ps| == 0 {
      var id := sink.Submit(TupV([]));
      LastLevel(ps, []);
      assert ps[|ps|..] == ps;
      return;
    }
    var storage := new Option<Val>[|ps|](k => None);
    assert ps[0..] == ps;
    assert Values(storage[..0]) == [];
    GridImpl(0, ps, storage, sink);
  }

  /** A grid run leaves every provider reset exactly when none that stood elsewhere has a provider without values before
      it. */
  lemma AllResetIff(fs: seq<Feed>)
    requires FeedsValid(fs)
    ensures (forall j | 0 <= j < |fs| :: Rewound(fs, 0)[j] == Start(fs[j], 0)) <==>
      (forall j | 0 <= j < |fs| && fs[j] != Start(fs[j], 0) :: Reached(fs, 0, j))
  {
    hide Wrap, Reached;
    var r := Rewound(fs, 0);
    assert forall j | 0 <= j < |fs| :: r[j] == if Reached(fs, 0, j) then Start(fs[j], 0) else fs[j];
  }

  /** It does happen: behind a provider without values a provider keeps its place, and no call is made. */
  method BehindNothing(p: IterableProvider, q: IterableProvider, sink: Sink)
    requires p != q && p.Valid() && q.Valid() && sink.Valid() && p.maxIdx == 0
    modifies p, q, sink
    ensures sink.calls == old(sink.calls) && q.idx == old(q.idx) && q.cursor == old(q.cursor)
  {
    hide Wrap, Start;
    var ps := [p, q];
    ghost var fs := FeedsOf(ps);
    FeedsAre(ps);
    RunGrid(ps, sink);
    FeedsAre(ps);
    assert !Reached(fs, 0, 1) by {
      assert fs[0].max == 0;
    }
    assert ps[1] == q && Rewound(fs, 0)[1] == fs[1];
    assert Columns(ps)[0] == [];
  }

  // ---- The zip ----------------------------------------------------------------------------

  /** How many whole rounds the providers can give. */
  function Rounds(fs: seq<Feed>): (n: nat)
    requires fs != []
    ensures forall j | 0 <= j < |fs| :: n <= fs[j].Left()
    ensures exists j :: 0 <= j < |fs| && fs[j].Left() == n
  {
    if |fs| == 1 then fs[0].Left()
    else
      var n := Rounds(fs[1..]);
      assert forall j | 0 <= j < |fs[1..]| :: fs[1..][j] == fs[j + 1];
      if fs[0].Left() < n then fs[0].Left() else n
  }

  /** The first provider with nothing left, or their number. */
  function FirstSpent(fs: seq<Feed>): (e: nat)
    ensures e <= |fs| && (forall j | 0 <= j < e :: fs[j].Left() > 0) && (e < |fs| ==> fs[e].Left() == 0)
  {
    if fs == [] || fs[0].Left() == 0 then 0 else 1 + FirstSpent(fs[1..])
  }

  /** The first `e` providers `n + 1` values further, the others `n`. */
  function Advanced(fs: seq<Feed>, n: nat, e: nat): (r: seq<Feed>)
    requires FeedsValid(fs)
    ensures |r| == |fs| && FeedsValid(r)
  {
    seq(|fs|, j requires 0 <= j < |fs| => fs[j].Ahead(if j < e then n + 1 else n))
  }

  function Row(fs: seq<Feed>, k: nat): seq<Val>
    requires FeedsValid(fs)
  {
    seq(|fs|, j requires 0 <= j < |fs| => fs[j].At(k))
  }

  function Rows(fs: seq<Feed>, n: nat): seq<Val>
    requires FeedsValid(fs)
  {
    seq(n, k requires 0 <= k < n => TupV(Row(fs, k)))
  }

  /** The values in round `k` of a zip: every provider walks around its items from where it stands. */
  lemma ZipValue(fs: seq<Feed>, n: nat, k: nat, j: nat)
    requires FeedsValid(fs) && k < n && j < |fs|
    ensures Rows(fs, n)[k] == TupV(Row(fs, k))
    ensures Row(fs, k)[j] == fs[j].items[(fs[j].cursor + k) % |fs[j].items|]
  {
    hide Wrap;
  }

  lemma AdvancedTwice(fs: seq<Feed>, n: nat, e: nat)
    requires FeedsValid(fs)
    ensures Advanced(Advanced(fs, n, 0), 0, e) == Advanced(fs, n, e)
    ensures Row(Advanced(fs, n, 0), 0) == Row(fs, n)
    ensures e == |fs| ==> Advanced(fs, n, e) == Advanced(fs, n + 1, 0)
    ensures Advanced(fs, 0, 0) == fs
  {
    forall j | 0 <= j < |fs|
      ensures Advanced(Advanced(fs, n, 0), 0, e)[j] == Advanced(fs, n, e)[j]
      ensures Row(Advanced(fs, n, 0), 0)[j] == Row(fs, n)[j]
      ensures Advanced(fs, 0, 0)[j] == fs[j]
    {
      AheadAgain(fs[j], n, if j < e then 1 else 0);
    }
  }

  lemma AdvancedNext(fs: seq<Feed>, i: nat)
    requires FeedsValid(fs) && i < |fs|
    ensures Advanced(fs, 0, i)[i] == fs[i]
    ensures Advanced(fs, 0, i)[i := fs[i].Ahead(1)] == Advanced(fs, 0, i + 1)
  {
    hide Wrap;
    AheadAgain(fs[i], 0, 0);
  }

  lemma RowsNext(fs: seq<Feed>, k: nat)
    requires FeedsValid(fs)
    ensures Rows(fs, k + 1) == Rows(fs, k) + [TupV(Row(fs, k))] && Rows(fs, 0) == []
  {}

  lemma RowIs(fs: seq<Feed>, vs: seq<Val>)
    requires FeedsValid(fs) && |vs| == |fs| && forall j | 0 <= j < |fs| :: vs[j] == fs[j].At(0)
    ensures vs == Row(fs, 0)
  {}

  /** The braced tuple of iter() calls: left to right, up to the first provider that is exhausted. */
  method NextRow(ps: seq<IterableProvider>) returns (row: Option<seq<Val>>)
    requires Distinct(ps) && AllValid(ps)
    modifies ps
    ensures AllValid(ps)
    ensures var fs, e := old(FeedsOf(ps)), FirstSpent(old(FeedsOf(ps)));
      && FeedsValid(fs) && FeedsOf(ps) == Advanced(fs, 0, e)
      && row == if e == |ps| then Some(Row(fs, 0)) else None
  {
    hide Feed.Ahead, Feed.At, Feed.Left, Advanced, Wrap, FeedsOf, FirstSpent, Row;
    ghost var fs := FeedsOf(ps);
    var vs := [];
    var i := 0;
    FeedsAreValid(ps);
    AdvancedTwice(fs, 0, 0);
    while i < |ps|
      invariant 0 <= i <= |ps| && AllValid(ps) && FeedsOf(ps) == Advanced(fs, 0, i)
      invariant forall j | 0 <= j < i :: fs[j].Left() > 0
      invariant |vs| == i && forall j | 0 <= j < i :: vs[j] == fs[j].At(0)
    {
      AdvancedNext(fs, i);
      var v := IterAt(ps, i);
      if v.None? {
        return None;
      }
      vs := vs + [v.value];
      i := i + 1;
    }
    RowIs(fs, vs);
    row := Some(vs);
  }

  /** Zip mode from wherever the providers stand: as many calls as the scarcest provider has values left. The providers
      before the first exhausted one end one value further than the others. */
  method ZipImpl(ps: seq<IterableProvider>, sink: Sink)
    requires ps != [] && Distinct(ps) && AllValid(ps) && sink.Valid()
    modifies ps, sink
    ensures AllValid(ps) && sink.Valid()
    ensures var fs := old(FeedsOf(ps));
      && FeedsValid(fs)
      && sink.calls == old(sink.calls) + Rows(fs, Rounds(fs))
      && FeedsOf(ps) == Advanced(fs, Rounds(fs), FirstSpent(Advanced(fs, Rounds(fs), 0)))
  {
    hide Feed.Ahead, Feed.At, Feed.Left, Advanced, Wrap, Row, Rows, FirstSpent, Rounds, FeedsOf, AllValid, Distinct,
      InProcess, FeedsValid;
    ghost var fs := FeedsOf(ps);
    ghost var k := 0;
    FeedsAreValid(ps);
    AdvancedTwice(fs, 0, 0);
    RowsNext(fs, 0);
    while true
      invariant AllValid(ps) && sink.Valid() && k <= Rounds(fs) && FeedsOf(ps) == Advanced(fs, k, 0)
      invariant sink.calls == old(sink.calls) + Rows(fs, k)
      decreases Rounds(fs) - k
    {
      AdvancedTwice(fs, k, FirstSpent(Advanced(fs, k, 0)));
      SpentIff(fs, k);
      RowsNext(fs, k);
      var row := NextRow(ps);
      if row.None? {
        break;
      }
      var id := sink.Submit(TupV(row.value));
      k := k + 1;
    }
  }

  /** After `k` rounds some provider is exhausted exactly when the rounds are used up. */
  lemma SpentIff(fs: seq<Feed>, k: nat)
    requires fs != [] && FeedsValid(fs) && k <= Rounds(fs)
    ensures FirstSpent(Advanced(fs, k, 0)) == |fs| <==> k < Rounds(fs)
  {
    hide Wrap;
    var now := Advanced(fs, k, 0);
    assert forall j | 0 <= j < |fs| :: now[j].Left() == fs[j].Left() - k;
    var j :| 0 <= j < |fs| && fs[j].Left() == Rounds(fs);
    assert now[j].Left() == Rounds(fs) - k;
  }

  /** The providers that end one value further are exactly those before the first scarcest one. */
  lemma ScarcestFirst(fs: seq<Feed>)
    requires fs != [] && FeedsValid(fs)
    ensures var e := FirstSpent(Advanced(fs, Rounds(fs), 0));
      e < |fs| && fs[e].Left() == Rounds(fs) && forall j | 0 <= j < e :: fs[j].Left() > Rounds(fs)
  {
    hide Wrap, Rounds, FirstSpent;
    SpentIff(fs, Rounds(fs));
    var now := Advanced(fs, Rounds(fs), 0);
    assert forall j | 0 <= j < |fs| :: now[j].Left() == fs[j].Left() - Rounds(fs);
  }
}
