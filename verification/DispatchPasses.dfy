/** What the dispatch loop does in the step system, between taking its locks and leaving, is one dispatch pass. */
module DispatchPasses {
  import opened Codec
  import opened WorkerSpec
  import opened PoolSpec
  import opened Ledger
  import opened System
  import opened Safety

  /** `how` says what happened at the slots before the one the loop stands at. */
  ghost predicate OnTheWay(c: Config, v: Pool, s: Sys, how: seq<Attempt>) {
    && InDispatch(s) && !s.producer.Checked? && |how| == s.consumer.i <= |v.slots|
    && var q := Passes(v, how, c.budget);
    && !q.threw && |s.books.pool.slots| == |v.slots|
    && (s.books.pool == q.pool || (s.consumer.i < |v.slots| && Restarting(q.pool, s.books.pool, s.consumer.i)))
  }

  /** Slot `i` has been started, or its worker has broken, since the loop came to it. */
  predicate Restarting(q: Pool, p: Pool, i: nat)
    requires i < |q.slots|
  {
    q.pending != [] && !q.slots[i].Busy? && |p.slots| == |q.slots| && (p.slots[i].Idle? || p.slots[i].Broken?)
      && p == q.(slots := q.slots[i := p.slots[i]])
  }

  /** A step that is not one of the dispatch loop. */
  predicate Foreign(step: Step) {
    OfProducer(step) || OfController(step) || OfKid(step) || step.Collect?
  }

  /** What a step adds to `how`. */
  function More(s: Sys, step: Step): seq<Attempt>
    requires InDispatch(s)
  {
    match step
    case SendDone => [Took]
    case CannotSend => [CannotSerialize]
    case Discard(respawned) => if s.consumer.Rejected? then [Failed(s.consumer.status, respawned)] else []
    case Spawn(ok) => if ok then [] else [SpawnFailed]
    case NextSlot =>
      if s.consumer.i < |s.books.pool.slots| && s.books.pool.pending != [] then [Took] else []
    case _ => []
  }

  /** The pass is over. */
  ghost predicate Over(c: Config, v: Pool, s: Sys, how: seq<Attempt>) {
    && |how| <= |v.slots| && (s.consumer.Away? || s.consumer.WantExpire?)
    && var q := Passes(v, how, c.budget);
    && s.books.pool == q.pool && (s.consumer.Away? <==> q.threw)
      && (q.threw || q.pool.pending == [] || |how| == |v.slots|)
  }

  lemma OtherThreads(c: Config, v: Pool, s: Sys, step: Step, how: seq<Attempt>)
    requires OnTheWay(c, v, s, how) && Next(c, s, step).Some? && Foreign(step)
    ensures OnTheWay(c, v, Next(c, s, step).value, how)
  {
    hide KidStep, DispatchStep, ConsumerStep, CollectStep, Passes, Restarting;
    if OfKid(step) {
      KidFrame(c, s, step.i, step);
    } else if step.Collect? {
      NotCollecting(c, s, step.i, step.how, step.respawned);
    }
  }

  lemma NotCollecting(c: Config, s: Sys, i: nat, how: How, respawned: bool)
    requires InDispatch(s) && i < |s.kids| && i < |s.books.pool.slots|
    ensures CollectStep(c, s, i, how, respawned).None?
  {
    hide Classify;
  }

  lemma LoopStep(c: Config, v: Pool, s: Sys, step: Step, how: seq<Attempt>)
    requires Shape(c, s) && OnTheWay(c, v, s, how) && DispatchStep(c, s, step).Some?
    ensures var s' := DispatchStep(c, s, step).value;
      if InDispatch(s') then OnTheWay(c, v, s', how + More(s, step)) else Over(c, v, s', how + More(s, step))
  {
    hide IsRequest, HasType, Passes;
    var i := s.consumer.i;
    assert how + [] == how;
    if i < |v.slots| && More(s, step) != [] {
      var a := More(s, step)[0];
      PassesNext(v, how, a, c.budget);
      var q := Passes(v, how, c.budget).pool;
      if q.pending != [] && !q.slots[i].Busy? {
        SameAttempt(q, s.books.pool, i, a, c.budget);
      }
    }
  }

  lemma SameAttempt(q: Pool, p: Pool, i: nat, a: Attempt, budget: nat)
    requires i < |q.slots| && q.pending != [] && (p == q || Restarting(q, p, i))
    ensures !a.SpawnFailed? ==> DispatchSlot(p, i, a, budget) == DispatchSlot(q, i, a, budget)
    ensures DispatchSlot(q, i, SpawnFailed, budget) == Pass(q, true, None)
  {
    var x := DispatchSlot(q, i, a, budget).pool.slots[i];
    assert p.slots[i := x] == q.slots[i := x];
  }

  // ---- Whole passes -------------------------------------------------------------------------

  /** The consumer is in the dispatch loop until the last of these steps takes it out. */
  predicate WholePass(c: Config, s: Sys, steps: seq<Step>)
    decreases |steps|
  {
    && steps != [] && InDispatch(s) && Next(c, s, steps[0]).Some?
    && var s' := Next(c, s, steps[0]).value;
       if |steps| == 1 then !InDispatch(s') else WholePass(c, s', steps[1..])
  }

  /** What happened at the slots, in order. */
  function HowOf(c: Config, s: Sys, steps: seq<Step>): seq<Attempt>
    decreases |steps|
  {
    if steps == [] || !InDispatch(s) || Next(c, s, steps[0]).None? then []
    else
      (if Foreign(steps[0]) then [] else More(s, steps[0]))
      + HowOf(c, Next(c, s, steps[0]).value, steps[1..])
  }

  lemma {:induction false} PassRun(c: Config, v: Pool, s: Sys, steps: seq<Step>, how: seq<Attempt>)
    requires Inv(c, s) && OnTheWay(c, v, s, how) && WholePass(c, s, steps) && Run(c, s, steps).Some?
    ensures Over(c, v, Run(c, s, steps).value, how + HowOf(c, s, steps))
    decreases |steps|
  {
    hide OnTheWay, Over, More, DispatchStep, ProducerStep, ControllerStep, KidStep, CollectStep, ConsumerStep, Inv;
    var step := steps[0];
    var s' := Next(c, s, step).value;
    var now := how + if Foreign(step) then [] else More(s, step);
    StillOnTheWay(c, v, s, step, how);
    StepKeeps(c, s, step);
    assert how + HowOf(c, s, steps) == now + HowOf(c, s', steps[1..]);
    if |steps| == 1 {
      assert HowOf(c, s', []) == [] && now + [] == now && Run(c, s', steps[1..]) == Some(s');
    } else {
      PassRun(c, v, s', steps[1..], now);
    }
  }

  lemma StillOnTheWay(c: Config, v: Pool, s: Sys, step: Step, how: seq<Attempt>)
    requires Inv(c, s) && OnTheWay(c, v, s, how) && Next(c, s, step).Some?
    ensures var s' := Next(c, s, step).value;
      var now := how + if Foreign(step) then [] else More(s, step);
      if InDispatch(s') then OnTheWay(c, v, s', now) else Over(c, v, s', now)
  {
    hide Over, More, DispatchStep, ProducerStep, ControllerStep, KidStep, CollectStep, ConsumerStep, Passes,
      Restarting, Balanced, BegunOk, KidOk, Honest;
    if Foreign(step) {
      OtherThreads(c, v, s, step, how);
      assert how + [] == how;
    } else {
      LoopStep(c, v, s, step, how);
    }
  }

  /** The attempts of a pass, with arbitrary ones for the slots it did not come to. */
  function Padded(how: seq<Attempt>, n: nat): (all: seq<Attempt>)
    requires |how| <= n
    ensures |all| == n
  {
    how + seq(n - |how|, k => Took)
  }

  lemma OverIsDispatch(c: Config, v: Pool, s: Sys, how: seq<Attempt>)
    requires Over(c, v, s, how)
    ensures s.books.pool == Dispatch(v, 0, Padded(how, |v.slots|), c.budget).pool
    ensures s.consumer.Away? <==> Dispatch(v, 0, Padded(how, |v.slots|), c.budget).threw
  {
    hide Dispatch, Passes;
    var rest := seq(|v.slots| - |how|, k => Took);
    if |how| == |v.slots| {
      assert how + rest == how && how[..|how|] == how;
      PassesAreDispatch(v, how, c.budget, |how|);
      NoSlotsLeft(Passes(v, how, c.budget).pool, how, c.budget);
    } else {
      PassOver(v, how, rest, c.budget);
    }
  }

  /** On every run, whatever the other threads and the children do meanwhile, the dispatch loop changes the pool as one
      dispatch pass does: it leaves with the exception exactly when the pass throws, and otherwise with nothing pending
      or every slot busy or with a failed send in this very pass. */
  lemma LoopIsOnePass(c: Config, s: Sys, steps: seq<Step>)
    requires c.budget >= 1 && Reachable(c, s) && s.consumer == Dispatching(0)
    requires WholePass(c, s, steps) && Run(c, s, steps).Some?
    ensures var p := s.books.pool;
      && |HowOf(c, s, steps)| <= |p.slots|
      && var how := Padded(HowOf(c, s, steps), |p.slots|);
      var q := Run(c, s, steps).value.books.pool;
      && |q.slots| == |p.slots| && q == Dispatch(p, 0, how, c.budget).pool
      && (Run(c, s, steps).value.consumer.Away? <==> Dispatch(p, 0, how, c.budget).threw)
      && (Run(c, s, steps).value.consumer.WantExpire? ==>
            q.pending == [] || forall j | 0 <= j < |q.slots| :: q.slots[j].Busy? || how[j].Failed?)
  {
    hide Dispatch, Balanced, BegunOk, KidOk, Honest, WholePass, Run;
    ReachableInv(c, s);
    var p := s.books.pool;
    assert OnTheWay(c, p, s, []);
    PassRun(c, p, s, steps, []);
    assert [] + HowOf(c, s, steps) == HowOf(c, s, steps);
    OverIsDispatch(c, p, Run(c, s, steps).value, HowOf(c, s, steps));
    if !Run(c, s, steps).value.consumer.Away? {
      WorkConserving(p, 0, Padded(HowOf(c, s, steps), |p.slots|), c.budget);
    }
  }
}
