/** The two ways to run an enumeration give the same results: isolated in the pool, and one after the other in the
    own process. */
module Modes {
  import opened Codec
  import opened WorkerSpec
  import opened PoolSpec
  import opened Ledger
  import opened System
  import opened Safety
  import opened Refinement
  import Enumeration
  import Shutdown

  /** The argument tuples that a run submits, in order. */
  function Pushed(c: Config, s: Sys, steps: seq<Step>): seq<Val>
    decreases |steps|
  {
    if steps == [] then []
    else
      (if steps[0].Push? && s.producer.Checked? then [s.producer.args] else [])
      + match Next(c, s, steps[0]) case Some(s') => Pushed(c, s', steps[1..]) case None => []
  }

  lemma InvIds(c: Config, s: Sys)
    requires Inv(c, s)
    ensures IdsRange(s.books)
  {
    hide KidOk, BegunOk, Honest, QueueOk, SlotsOk, AccountsOk, CountsOk, Shape;
  }

  lemma CallsStep(c: Config, s: Sys, step: Step)
    requires Inv(c, s) && Next(c, s, step).Some?
    ensures Inv(c, Next(c, s, step).value) && IdsRange(s.books) && IdsRange(Next(c, s, step).value.books)
    ensures Calls(Next(c, s, step).value.books) ==
      Calls(s.books) + if step.Push? && s.producer.Checked? then [s.producer.args] else []
  {
    hide Inv, Next, Attempted, Ledger.Collected, SetSlot, DispatchSlot;
    StepKeeps(c, s, step);
    InvIds(c, s);
    var s' := Next(c, s, step).value;
    InvIds(c, s');
    Shutdown.BooksStep(c, s, step);
    SameCalls(c, s, step, s'.books);
  }

  lemma SameCalls(c: Config, s: Sys, step: Step, b: Books)
    requires Shutdown.BooksChange(c, s, step, b) && IdsRange(s.books) && IdsRange(b)
    ensures Calls(b) == Calls(s.books) + if step.Push? && s.producer.Checked? then [s.producer.args] else []
  {
    assert !step.Push? ==> b.args == s.books.args && b.pool.nextId == s.books.pool.nextId;
  }

  lemma {:induction false} PushedAreCalls(c: Config, s: Sys, steps: seq<Step>)
    requires Inv(c, s) && Run(c, s, steps).Some?
    ensures IdsRange(s.books) && IdsRange(Run(c, s, steps).value.books)
    ensures Calls(Run(c, s, steps).value.books) == Calls(s.books) + Pushed(c, s, steps)
    decreases |steps|
  {
    hide Inv, Next, Calls, IdsRange;
    InvIds(c, s);
    if steps == [] {
      assert Calls(s.books) + [] == Calls(s.books);
    } else {
      CallsStep(c, s, steps[0]);
      PushedAreCalls(c, Next(c, s, steps[0]).value, steps[1..]);
    }
  }

  /** A run of the pool without infrastructure failures, at the end of which no work is left; target calls end as `f`
      says. */
  predicate CleanlyDrained(c: Config, steps: seq<Step>, f: Val -> Outcome) {
    && c.budget >= 1 && Run(c, Init(c), steps).Some? && Follows(c, Init(c), steps, f)
    && (forall k | 0 <= k < |steps| :: Clean(steps[k]))
    && !HasWork(Run(c, Init(c), steps).value.books.pool)
  }

  ghost predicate OneEach(results: seq<TaskResult>) {
    forall j, k | 0 <= j < k < |results| :: results[j].taskId != results[k].taskId
  }

  /** The same results up to order, each once. */
  ghost predicate SameResults(delivered: seq<TaskResult>, expected: seq<TaskResult>) {
    |delivered| == |expected| && (forall r :: r in delivered <==> r in expected) && OneEach(delivered)
  }

  lemma RunsThrough(c: Config, steps: seq<Step>, f: Val -> Outcome)
    requires CleanlyDrained(c, steps, f)
    ensures c.budget >= 1 && Run(c, Init(c), steps).Some?
  {}

  lemma DrainedMatches(c: Config, steps: seq<Step>, f: Val -> Outcome)
    requires CleanlyDrained(c, steps, f)
    ensures MatchesInProcess(Run(c, Init(c), steps).value.books, f)
  {
    hide Run, Init, Clean, Follows, HasWork, MatchesInProcess;
    IsolatedRefinesInProcess(c, steps, f);
  }

  function Results(c: Config, steps: seq<Step>): seq<TaskResult>
    requires Run(c, Init(c), steps).Some?
  {
    Run(c, Init(c), steps).value.books.delivered
  }

  /** The calls in the final books are the submitted tuples. */
  lemma FinalCalls(c: Config, steps: seq<Step>)
    requires c.budget >= 1 && Run(c, Init(c), steps).Some?
    ensures IdsRange(Run(c, Init(c), steps).value.books)
    ensures Calls(Run(c, Init(c), steps).value.books) == Pushed(c, Init(c), steps)
  {
    hide Run, Init, Pushed, Calls, Inv, IdsRange;
    InitInv(c);
    NoCallsYet(c);
    PushedAreCalls(c, Init(c), steps);
    assert [] + Pushed(c, Init(c), steps) == Pushed(c, Init(c), steps);
  }

  lemma FinalOnce(c: Config, steps: seq<Step>)
    requires c.budget >= 1 && Run(c, Init(c), steps).Some?
    ensures OneEach(Results(c, steps))
  {
    hide Run, Init, Inv, OneEach;
    InitInv(c);
    RunKeeps(c, Init(c), steps);
    OncePerTask(c, Run(c, Init(c), steps).value);
  }

  /** The counting: over the final books and the submitted tuples, without the run. */
  lemma BooksAgree(b: Books, f: Val -> Outcome)
    requires MatchesInProcess(b, f) && OneEach(b.delivered)
    ensures SameResults(b.delivered, InProcess(f, Calls(b)))
  {
    hide Calls, InProcess, IdsRange;
    var expected := InProcess(f, Calls(b));
    forall r | r in b.delivered
      ensures r in expected
    {
      var k :| 0 <= k < |b.delivered| && b.delivered[k] == r;
      assert expected[b.delivered[k].taskId - 1] == r;
    }
  }

  /** Such a run has returned, up to order, exactly the results that calling the target on the submitted tuples one
      after the other gives. */
  lemma ModesAgree(c: Config, steps: seq<Step>, f: Val -> Outcome)
    requires CleanlyDrained(c, steps, f)
    ensures SameResults(Results(c, steps), InProcess(f, Pushed(c, Init(c), steps)))
  {
    hide Init, Run, Pushed, Calls, IdsRange, InProcess, CleanlyDrained, SameResults, MatchesInProcess, OneEach;
    RunsThrough(c, steps, f);
    DrainedMatches(c, steps, f);
    FinalCalls(c, steps);
    FinalOnce(c, steps);
    BooksAgree(Run(c, Init(c), steps).value.books, f);
  }

  // ---- Whole enumerations -----------------------------------------------------------------

  /** Grid mode, isolated and in the own process: when the isolated run submits what the grid enumerates, it returns
      exactly the results that the run in the own process leaves, over the same providers and wherever these stand. */
  method GridBothWays(ps: seq<Enumeration.IterableProvider>, isolated: Enumeration.Sink, own: Enumeration.Sink,
                      ghost c: Config, ghost steps: seq<Step>, f: Val -> Outcome)
    requires Enumeration.Distinct(ps) && Enumeration.AllValid(ps)
    requires isolated != own && isolated.Valid() && own.Valid() && isolated.calls == [] == own.calls
    requires isolated.mode.Isolated? && own.mode == Enumeration.OwnProcess(f) && CleanlyDrained(c, steps, f)
    modifies ps, isolated, own
    ensures isolated.calls == own.calls == Enumeration.Tuples([], Enumeration.Product(Enumeration.Columns(ps)))
    ensures Pushed(c, Init(c), steps) == isolated.calls ==> SameResults(Results(c, steps), own.results)
  {
    hide CleanlyDrained, SameResults, Enumeration.Tuples, Enumeration.Product, Enumeration.Rewound,
      Enumeration.FeedsOf, Results, Pushed, InProcess;
    Enumeration.RunGrid(ps, isolated);
    Enumeration.RunGrid(ps, own);
    FromNothing(isolated.calls, own.calls, Enumeration.Tuples([], Enumeration.Product(Enumeration.Columns(ps))));
    ModesAgree(c, steps, f);
  }

  lemma FromNothing(a: seq<Val>, b: seq<Val>, calls: seq<Val>)
    requires a == [] + calls && b == [] + calls
    ensures a == b == calls
  {}

  /** Zip mode, isolated and in the own process, over providers that stand alike. */
  method ZipBothWays(ps: seq<Enumeration.IterableProvider>, qs: seq<Enumeration.IterableProvider>,
                     isolated: Enumeration.Sink, own: Enumeration.Sink,
                     ghost c: Config, ghost steps: seq<Step>, f: Val -> Outcome)
    requires ps != [] && Enumeration.Distinct(ps) && Enumeration.AllValid(ps)
    requires Enumeration.Distinct(qs) && Enumeration.AllValid(qs) && (forall p | p in ps + qs :: p !in ps || p !in qs)
    requires Enumeration.FeedsOf(ps) == Enumeration.FeedsOf(qs)
    requires isolated != own && isolated.Valid() && own.Valid() && isolated.calls == [] == own.calls
    requires isolated.mode.Isolated? && own.mode == Enumeration.OwnProcess(f) && CleanlyDrained(c, steps, f)
    modifies ps, qs, isolated, own
    ensures var fs := old(Enumeration.FeedsOf(ps));
      Enumeration.FeedsValid(fs) && isolated.calls == own.calls == Enumeration.Rows(fs, Enumeration.Rounds(fs))
    ensures Pushed(c, Init(c), steps) == isolated.calls ==> SameResults(Results(c, steps), own.results)
  {
    hide CleanlyDrained, SameResults, Enumeration.Rows, Enumeration.Rounds, Enumeration.Advanced,
      Enumeration.FirstSpent, Enumeration.FeedsOf, Results, Pushed, InProcess;
    ghost var fs := Enumeration.FeedsOf(ps);
    Enumeration.FeedsAre(qs);
    Enumeration.ZipImpl(ps, isolated);
    Enumeration.FeedsAre(qs);
    forall j | 0 <= j < |qs|
      ensures qs[j].Valid() && Enumeration.FeedsOf(qs)[j] == fs[j]
    {
      assert qs[j] in ps + qs;
    }
    assert Enumeration.FeedsOf(qs) == fs;
    Enumeration.ZipImpl(qs, own);
    FromNothing(isolated.calls, own.calls, Enumeration.Rows(fs, Enumeration.Rounds(fs)));
    ModesAgree(c, steps, f);
  }

  /** The results of a grid, said without the providers: one for every row of the product, in any order, and each the
      outcome of the target on that row. */
  lemma GridResults(c: Config, steps: seq<Step>, f: Val -> Outcome, columns: seq<seq<Val>>)
    requires CleanlyDrained(c, steps, f)
    requires Pushed(c, Init(c), steps) == Enumeration.Tuples([], Enumeration.Product(columns))
    ensures |Results(c, steps)| == Enumeration.Volume(columns)
    ensures forall r | r in Results(c, steps) ::
      r.args.TupV? && Enumeration.Picks(columns, r.args.parts) && r == ResultOf(r.taskId, r.args, f(r.args))
    ensures forall row | Enumeration.Picks(columns, row) :: exists r :: r in Results(c, steps) && r.args == TupV(row)
  {
    hide CleanlyDrained, Enumeration.Product, Enumeration.Picks, Results, Pushed, Enumeration.Volume;
    assert Run(c, Init(c), steps).Some? by {
      RunsThrough(c, steps, f);
    }
    hide Run;
    var rows := Enumeration.Product(columns);
    var calls := Enumeration.Tuples([], rows);
    var expected := InProcess(f, calls);
    Enumeration.ProductSize(columns);
    ModesAgree(c, steps, f);
    assert forall k | 0 <= k < |rows| :: [] + rows[k] == rows[k] && calls[k] == TupV(rows[k]);
    forall r | r in Results(c, steps)
      ensures r.args.TupV? && Enumeration.Picks(columns, r.args.parts) && r == ResultOf(r.taskId, r.args, f(r.args))
    {
      var k :| 0 <= k < |expected| && expected[k] == r;
      Enumeration.ProductMember(columns, rows[k]);
    }
    forall row | Enumeration.Picks(columns, row)
      ensures exists r :: r in Results(c, steps) && r.args == TupV(row)
    {
      Enumeration.ProductMember(columns, row);
      var k :| 0 <= k < |rows| && rows[k] == row;
      assert expected[k] in expected && expected[k].args == TupV(row);
    }
  }

  lemma NoCallsYet(c: Config)
    ensures IdsRange(Init(c).books) && Calls(Init(c).books) == []
  {}

  lemma OncePerTask(c: Config, s: Sys)
    requires Inv(c, s)
    ensures OneEach(s.books.delivered)
  {
    hide KidOk, BegunOk, Honest, QueueOk, SlotsOk, CountsOk, IdsOk, Shape;
  }
}
