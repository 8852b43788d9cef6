/** Stopping: the pool's state only moves forward, an immediate stop is final, a drain ends and answers every task,
    and a drained pool stays drained. */
module Shutdown {
  import opened Codec
  import opened Frame
  import opened WorkerSpec
  import opened PoolSpec
  import opened Ledger
  import opened System
  import opened Safety

  // ---- How steps change the books ---------------------------------------------------------

  /** The attempt that a settling step of the dispatch loop records. */
  function AttemptOf(s: Sys, step: Step): Attempt {
    if step.SendDone? then Took
    else if step.Discard? && s.consumer.Rejected? then Failed(s.consumer.status, step.respawned)
    else CannotSerialize
  }

  predicate SettlesHead(step: Step) {
    step.SendDone? || step.Discard? || step.CannotSend?
  }

  predicate AtSlot(s: Sys) {
    && InDispatch(s)
    && s.consumer.i < |s.books.pool.slots| && s.books.pool.pending != []
  }

  ghost predicate BooksChange(c: Config, s: Sys, step: Step, b: Books) {
    if step.Push? then s.producer.Checked? && b == Ledger.Push(s.books, s.producer.args)
    else if step.KillAll? then s.controller.KillStored? && b == Ledger.Killed(s.books)
    else if SettlesHead(step) then AtSlot(s) && b == Attempted(s.books, s.consumer.i, AttemptOf(s, step), c.budget)
    else if step.Spawn? then
      AtSlot(s) && s.books.pool.slots[s.consumer.i].Stopped?
      && b == if step.ok then SetSlot(s.books, s.consumer.i, Idle)
        else Attempted(s.books, s.consumer.i, SpawnFailed, c.budget)
    else if step.SendFail? then AtSlot(s) && s.consumer.Sending? && b == SetSlot(s.books, s.consumer.i, Broken)
    else if step.Collect? then
      step.i < |s.books.pool.slots| && s.books.pool.slots[step.i].Busy?
      && exists r, reusable :: b == Ledger.Collected(s.books, step.i, r, reusable, step.respawned)
    else b == s.books
  }

  lemma BooksStep(c: Config, s: Sys, step: Step)
    requires Next(c, s, step).Some?
    ensures BooksChange(c, s, step, Next(c, s, step).value.books)
  {
    hide ProducerStep, ControllerStep, KidStep, DispatchStep, ConsumerStep, CollectStep, BooksChange;
    if OfProducer(step) {
      BooksProducer(c, s, step);
    } else if OfController(step) {
      BooksController(c, s, step);
    } else if OfKid(step) {
      KidFrame(c, s, step.i, step);
      BooksSame(c, s, step);
    } else if step.Collect? {
      BooksCollect(c, s, step);
    } else if InDispatch(s) {
      BooksDispatch(c, s, step);
    } else {
      ConsumerFrame(s, step);
      BooksConsumer(c, s, step);
    }
  }

  lemma BooksSame(c: Config, s: Sys, step: Step)
    requires OfKid(step)
    ensures BooksChange(c, s, step, s.books)
  {}

  lemma BooksConsumer(c: Config, s: Sys, step: Step)
    requires !OfProducer(step) && !OfController(step) && !step.Collect? && !InDispatch(s) && ConsumerStep(s, step).Some?
    ensures BooksChange(c, s, step, s.books)
  {
    hide HasWork;
  }

  lemma BooksProducer(c: Config, s: Sys, step: Step)
    requires OfProducer(step) && ProducerStep(c, s, step).Some?
    ensures BooksChange(c, s, step, ProducerStep(c, s, step).value.books)
  {
    hide HasType, Ledger.Push;
  }

  lemma BooksController(c: Config, s: Sys, step: Step)
    requires OfController(step) && ControllerStep(s, step).Some?
    ensures BooksChange(c, s, step, ControllerStep(s, step).value.books)
  {
    hide Ledger.Killed;
  }

  lemma BooksCollect(c: Config, s: Sys, step: Step)
    requires step.Collect? && step.i < |s.kids| && step.i < |s.books.pool.slots|
    requires CollectStep(c, s, step.i, step.how, step.respawned).Some?
    ensures BooksChange(c, s, step, CollectStep(c, s, step.i, step.how, step.respawned).value.books)
  {
    hide Receive, Classify, Ledger.Collected;
  }

  lemma BooksDispatch(c: Config, s: Sys, step: Step)
    requires !OfProducer(step) && !OfController(step) && !OfKid(step) && !step.Collect?
    requires InDispatch(s) && DispatchStep(c, s, step).Some?
    ensures BooksChange(c, s, step, DispatchStep(c, s, step).value.books)
  {
    hide IsRequest, Attempted, SetSlot;
  }

  /** The slot at which the dispatch loop stands is never busy when a step settles the head there. */
  lemma SettledSlotFree(c: Config, s: Sys, step: Step)
    requires Shape(c, s) && Next(c, s, step).Some? && (SettlesHead(step) || step.SendFail?)
    ensures AtSlot(s) && !s.books.pool.slots[s.consumer.i].Busy?
  {
    hide Receive, HasType, IsReply, IsRequest, Attempted, SetSlot;
  }

  // ---- The state only moves forward -------------------------------------------------------

  function Progress(state: PoolState): nat {
    match state
    case Accepting => 0
    case Finishing => 1
    case Halted => 2
  }

  /** Only the controller changes the state. */
  lemma OthersKeepState(c: Config, s: Sys, step: Step)
    requires !OfController(step) && Next(c, s, step).Some?
    ensures Next(c, s, step).value.state == s.state && Next(c, s, step).value.sealed == s.sealed
  {
    hide ProducerStep, ControllerStep, KidStep, DispatchStep, ConsumerStep, CollectStep;
    if OfProducer(step) {
      ProducerFrame(c, s, step);
    } else if OfKid(step) {
      KidFrame(c, s, step.i, step);
    } else if step.Collect? {
      CollectFrame(c, s, step.i, step.how, step.respawned);
    } else if InDispatch(s) {
      DispatchFrame(c, s, step);
    } else {
      ConsumerFrame(s, step);
    }
  }

  lemma StateMonotone(c: Config, s: Sys, step: Step)
    requires Next(c, s, step).Some?
    ensures Progress(s.state) <= Progress(Next(c, s, step).value.state)
    ensures s.sealed ==> Next(c, s, step).value.sealed
  {
    hide ProducerStep, KidStep, DispatchStep, ConsumerStep, CollectStep, Ledger.Killed;
    if !OfController(step) {
      OthersKeepState(c, s, step);
    }
  }

  // ---- Immediate stop is terminal ---------------------------------------------------------

  predicate Inert(s: Sys) {
    && s.state.Halted? && s.books.pool.pending == []
    && (forall i | 0 <= i < |s.books.pool.slots| :: s.books.pool.slots[i].Stopped?)
    && (forall i | 0 <= i < |s.kids| :: s.kids[i] == NoKid)
    && !s.producer.Checked?
    && !ConsumerHoldsPending(s.consumer) && !ConsumerHoldsWorkers(s.consumer)
  }

  /** Before the locked section of stop_immediately() nothing has been dropped; after it the pool is inert. */
  ghost predicate SealInv(s: Sys) {
    && (s.sealed ==> Inert(s))
    && (!s.sealed ==> s.books.dropped == 0 && forall id | id in s.books.loc :: !s.books.loc[id].Dropped?)
    && (!s.state.Halted? ==> !s.sealed && !s.controller.KillStored? && !s.controller.OwesKill?)
    && (s.controller.OwesKill? ==> s.sealed)
  }

  lemma SealStep(c: Config, s: Sys, step: Step)
    requires Inv(c, s) && SealInv(s) && Next(c, s, step).Some?
    ensures SealInv(Next(c, s, step).value)
  {
    hide Receive, HasType, IsRequest, IsReply, Classify, Inv, SealInv;
    if OfProducer(step) {
      SealProducer(c, s, step);
    } else if OfController(step) {
      SealController(s, step);
    } else if OfKid(step) {
      KidFrame(c, s, step.i, step);
      SealKid(c, s, step.i, step);
    } else if step.Collect? {
      SealCollect(c, s, step.i, step.how, step.respawned);
    } else if InDispatch(s) {
      SealDispatch(c, s, step);
    } else {
      SealConsumer(s, step);
    }
  }

  lemma SealConsumer(s: Sys, step: Step)
    requires SealInv(s) && ConsumerStep(s, step).Some?
    ensures SealInv(ConsumerStep(s, step).value)
  {
    hide HasWork, ConsumerStep;
    ConsumerFrame(s, step);
    if s.sealed {
      InertConsumer(s, step);
    }
  }

  lemma InertConsumer(s: Sys, step: Step)
    requires ConsumerStep(s, step).Some? && s.state.Halted? && !ConsumerHoldsPending(s.consumer)
      && !ConsumerHoldsWorkers(s.consumer)
    requires (forall i | 0 <= i < |s.books.pool.slots| :: s.books.pool.slots[i].Stopped?)
    ensures var pc := ConsumerStep(s, step).value.consumer; !ConsumerHoldsPending(pc) && !ConsumerHoldsWorkers(pc)
  {
    hide Readable;
  }

  lemma SealProducer(c: Config, s: Sys, step: Step)
    requires SealInv(s) && ProducerStep(c, s, step).Some?
    ensures SealInv(ProducerStep(c, s, step).value)
  {}

  lemma SealController(s: Sys, step: Step)
    requires SealInv(s) && ControllerStep(s, step).Some?
    ensures SealInv(ControllerStep(s, step).value)
  {}

  lemma SealKid(c: Config, s: Sys, i: nat, step: Step)
    requires SealInv(s) && i < |s.kids| && KidStep(c, s, i, step).Some?
    ensures SealInv(KidStep(c, s, i, step).value)
  {
    hide Receive, HasType, IsRequest, IsReply, Classify;
  }

  lemma SealCollect(c: Config, s: Sys, i: nat, how: How, respawned: bool)
    requires SealInv(s) && i < |s.kids| && i < |s.books.pool.slots| && CollectStep(c, s, i, how, respawned).Some?
    ensures SealInv(CollectStep(c, s, i, how, respawned).value)
  {
    hide Receive, HasType, IsRequest, IsReply, Classify;
  }

  lemma SealDispatch(c: Config, s: Sys, step: Step)
    requires SealInv(s) && InDispatch(s)
    requires DispatchStep(c, s, step).Some?
    ensures SealInv(DispatchStep(c, s, step).value)
  {
    hide Receive, HasType, IsRequest, IsReply, Classify;
  }

  lemma {:induction false} SealRun(c: Config, s: Sys, steps: seq<Step>)
    requires Inv(c, s) && SealInv(s) && Run(c, s, steps).Some?
    ensures SealInv(Run(c, s, steps).value)
    decreases |steps|
  {
    if steps == [] {
    } else {
      StepKeeps(c, s, steps[0]);
      SealStep(c, s, steps[0]);
      SealRun(c, Next(c, s, steps[0]).value, steps[1..]);
    }
  }

  /** Once stop_immediately() has run its locked section, nothing is queued, no worker runs and no target call
      begins on any continuation, whatever submit() or wait_one() had already passed its check. */
  lemma {:induction false} SealedForever(c: Config, s: Sys, steps: seq<Step>)
    requires c.budget >= 1 && Reachable(c, s) && s.sealed && Run(c, s, steps).Some?
    ensures Inert(s) && Inert(Run(c, s, steps).value)
    ensures Run(c, s, steps).value.books == s.books && Run(c, s, steps).value.begun == s.begun
  {
    ReachableInv(c, s);
    ReachableSeal(c, s);
    SealedRun(c, s, steps);
  }

  lemma ReachableSeal(c: Config, s: Sys)
    requires c.budget >= 1 && Reachable(c, s)
    ensures SealInv(s)
  {
    var steps :| Run(c, Init(c), steps) == Some(s);
    InitInv(c);
    SealRun(c, Init(c), steps);
  }

  lemma {:induction false} SealedRun(c: Config, s: Sys, steps: seq<Step>)
    requires Inv(c, s) && SealInv(s) && s.sealed && Run(c, s, steps).Some?
    ensures Inert(Run(c, s, steps).value)
    ensures Run(c, s, steps).value.books == s.books && Run(c, s, steps).value.begun == s.begun
    decreases |steps|
  {
    if steps == [] {
    } else {
      var s' := Next(c, s, steps[0]).value;
      StepKeeps(c, s, steps[0]);
      SealStep(c, s, steps[0]);
      StateMonotone(c, s, steps[0]);
      SealedStep(c, s, steps[0]);
      SealedRun(c, s', steps[1..]);
    }
  }

  lemma SealedStep(c: Config, s: Sys, step: Step)
    requires Inv(c, s) && Inert(s) && Next(c, s, step).Some?
    ensures var s' := Next(c, s, step).value; s'.books == s.books && s'.begun == s.begun
  {
    hide Inv, Next, BooksChange;
    BooksStep(c, s, step);
    SealedBooks(c, s, step, Next(c, s, step).value.books);
    SealedBegun(c, s, step);
  }

  lemma SealedBooks(c: Config, s: Sys, step: Step, b: Books)
    requires Inv(c, s) && Inert(s) && BooksChange(c, s, step, b)
    ensures b == s.books
  {
    hide KidOk, BegunOk, Honest, Balanced, Shape, Attempted, Ledger.Collected, Ledger.Killed, Ledger.Push;
    if step.KillAll? {
      KilledAgain(c, s);
    }
  }

  lemma SealedBegun(c: Config, s: Sys, step: Step)
    requires Inert(s) && Next(c, s, step).Some?
    ensures Next(c, s, step).value.begun == s.begun
  {
    hide ProducerStep, ControllerStep, KidStep, DispatchStep, ConsumerStep, CollectStep;
    if OfProducer(step) {
      ProducerFrame(c, s, step);
    } else if OfController(step) {
      ControllerFrame(s, step);
    } else if step.Collect? {
      CollectFrame(c, s, step.i, step.how, step.respawned);
    } else if OfKid(step) {
      NoKidNoStep(c, s, step.i, step);
    } else {
      ConsumerFrame(s, step);
    }
  }

  lemma NoKidNoStep(c: Config, s: Sys, i: nat, step: Step)
    requires i < |s.kids| && s.kids[i].NoKid?
    ensures KidStep(c, s, i, step) == None
  {
    hide Receive, IsReply;
  }

  lemma KilledAgain(c: Config, s: Sys)
    requires Balanced(s.books, c.budget) && Inert(s)
    ensures Ledger.Killed(s.books) == s.books
  {
    CountNone(s.books.pool.slots);
    assert Ledger.Killed(s.books).loc == s.books.loc;
    assert Ledger.Killed(s.books).pool.slots == s.books.pool.slots;
  }

  // ---- A drained pool stays drained -------------------------------------------------------

  /** drained(), in a state where its two locks can be had. */
  predicate Drained(s: Sys) {
    s.state.Finishing? && !HasWork(s.books.pool) && !s.producer.Checked?
  }

  /** Only stop_immediately() ends it. */
  lemma DrainedStable(c: Config, s: Sys, step: Step)
    requires Inv(c, s) && Drained(s) && Next(c, s, step).Some? && !step.KillStore?
    ensures Drained(Next(c, s, step).value)
  {
    hide Inv, Next, BooksChange;
    InvShape(c, s);
    BooksStep(c, s, step);
    DrainedBooks(c, s, step, Next(c, s, step).value.books);
    DrainedThreads(c, s, step);
  }

  lemma DrainedBooks(c: Config, s: Sys, step: Step, b: Books)
    requires Drained(s) && BooksChange(c, s, step, b)
    ensures !HasWork(b.pool)
  {
    hide Attempted, Ledger.Collected, Ledger.Push;
  }

  lemma DrainedThreads(c: Config, s: Sys, step: Step)
    requires Drained(s) && Next(c, s, step).Some? && !step.KillStore?
    ensures Next(c, s, step).value.state.Finishing? && !Next(c, s, step).value.producer.Checked?
  {
    hide Next, HasWork;
    NoNewSubmission(c, s, step);
    if OfController(step) {
      ControllerNext(c, s, step);
      DrainedController(s, step);
    } else {
      OthersKeepState(c, s, step);
    }
  }

  lemma ControllerNext(c: Config, s: Sys, step: Step)
    requires OfController(step)
    ensures Next(c, s, step) == ControllerStep(s, step)
  {
    hide ControllerStep;
  }

  lemma DrainedController(s: Sys, step: Step)
    requires s.state.Finishing? && ControllerStep(s, step).Some? && !step.KillStore?
    ensures ControllerStep(s, step).value.state.Finishing?
  {
    hide Ledger.Killed;
  }

  /** wait_one() throws its drained error only when every submitted task has been answered, or was lost to an
      exception that wait_one() threw. */
  lemma DrainedErrorIsHonest(c: Config, s: Sys)
    requires Inv(c, s) && SealInv(s)
    requires Next(c, s, CheckWork).Some? && Next(c, s, CheckWork).value.consumer.Away?
    ensures Drained(s)
    ensures forall id | 1 <= id < s.books.pool.nextId ::
      s.books.loc[id].Delivered? || s.books.loc[id].Unreported? || s.books.loc[id].Lost?
    ensures s.books.pool.submitted == |s.books.delivered| + |s.books.unreported| + |s.books.lost|
  {
    hide Inv, Next, Balanced, HasWork;
    ThrowsWhenDrained(c, s);
    DrainedAccounts(c, s);
  }

  lemma ThrowsWhenDrained(c: Config, s: Sys)
    requires Next(c, s, CheckWork).Some? && Next(c, s, CheckWork).value.consumer.Away?
    ensures Drained(s)
  {
    hide HasWork, ProducerStep, ControllerStep, KidStep, CollectStep, Attempted, IsRequest, SetSlot, DispatchSlot;
  }

  lemma DrainedAccounts(c: Config, s: Sys)
    requires Inv(c, s) && SealInv(s) && Drained(s)
    ensures forall id | 1 <= id < s.books.pool.nextId ::
      id in s.books.loc && (s.books.loc[id].Delivered? || s.books.loc[id].Unreported? || s.books.loc[id].Lost?)
    ensures s.books.pool.submitted == |s.books.delivered| + |s.books.unreported| + |s.books.lost|
  {
    hide Receive, HasType, KidOk, BegunOk, Honest, Shape, CountBusy;
    CountNone(s.books.pool.slots);
  }

  // ---- Draining ends ----------------------------------------------------------------------

  /** The steps that settle one delivery or one result. */
  predicate Productive(step: Step) {
    step.SendDone? || step.Discard? || step.CannotSend? || step.Collect?
  }

  lemma SlotRank(p: Pool, i: nat, slot: Slot, finished: nat, budget: nat)
    requires i < |p.slots| && !slot.Busy?
    ensures Rank(p.(slots := p.slots[i := slot], finished := finished), budget) ==
      Rank(p, budget) - if p.slots[i].Busy? then 1 else 0
  {
    CountUpdate(p.slots, i, slot);
  }

  lemma RankKilled(b: Books, budget: nat)
    ensures Rank(Ledger.Killed(b).pool, budget) == 0
  {
    CountNone(Ledger.Killed(b).pool.slots);
  }

  /** No step but a push raises the rank, and every productive step lowers it. */
  lemma RankStep(c: Config, s: Sys, step: Step)
    requires Inv(c, s) && Next(c, s, step).Some? && !step.Push?
    ensures var s' := Next(c, s, step).value;
      Rank(s'.books.pool, c.budget) + (if Productive(step) then 1 else 0) <= Rank(s.books.pool, c.budget)
  {
    hide Inv, BooksChange, Next, Rank;
    BooksStep(c, s, step);
    if SettlesHead(step) {
      InvShape(c, s);
      SettledSlotFree(c, s, step);
      HeadPending(c, s);
      RankSettled(c, s, step, Next(c, s, step).value.books);
    } else {
      RankOther(c, s, step, Next(c, s, step).value.books);
    }
  }

  lemma RankSettled(c: Config, s: Sys, step: Step, b: Books)
    requires SettlesHead(step) && BooksChange(c, s, step, b)
    requires AtSlot(s) && !s.books.pool.slots[s.consumer.i].Busy? && Head(s).attempts < c.budget
    ensures Rank(b.pool, c.budget) < Rank(s.books.pool, c.budget)
  {
    hide Rank, DispatchSlot;
    AttemptLowersRank(s.books.pool, s.consumer.i, AttemptOf(s, step), c.budget);
  }

  lemma RankOther(c: Config, s: Sys, step: Step, b: Books)
    requires !SettlesHead(step) && !step.Push? && BooksChange(c, s, step, b)
    ensures Rank(b.pool, c.budget) + (if step.Collect? then 1 else 0) <= Rank(s.books.pool, c.budget)
  {
    hide Rank;
    var p := s.books.pool;
    if step.KillAll? {
      RankKilled(s.books, c.budget);
    } else if step.Collect? || step.Spawn? || step.SendFail? {
      var i := if step.Collect? then step.i else s.consumer.i;
      SlotRank(p, i, b.pool.slots[i], b.pool.finished, c.budget);
    }
  }

  function CountProductive(steps: seq<Step>): nat {
    if steps == [] then 0 else (if Productive(steps[0]) then 1 else 0) + CountProductive(steps[1..])
  }

  /** From any reachable state on, without new submissions, at most Rank deliveries, failed deliveries and
      results happen, however long the run is. */
  lemma {:induction false} DrainTerminates(c: Config, s: Sys, steps: seq<Step>)
    requires Inv(c, s) && Run(c, s, steps).Some? && forall k | 0 <= k < |steps| :: !steps[k].Push?
    ensures CountProductive(steps) + Rank(Run(c, s, steps).value.books.pool, c.budget) <= Rank(s.books.pool, c.budget)
    decreases |steps|
  {
    if steps == [] {
    } else {
      RankStep(c, s, steps[0]);
      StepKeeps(c, s, steps[0]);
      assert forall k | 0 <= k < |steps[1..]| :: steps[1..][k] == steps[k + 1];
      DrainTerminates(c, Next(c, s, steps[0]).value, steps[1..]);
    }
  }

  function CountPushes(steps: seq<Step>): nat {
    if steps == [] then 0 else (if steps[0].Push? then 1 else 0) + CountPushes(steps[1..])
  }

  /** After stop() at most one submission is still pushed, and only one that had passed its check before. */
  lemma {:induction false} NoPushAfterStop(c: Config, s: Sys, steps: seq<Step>)
    requires !s.state.Accepting? && Run(c, s, steps).Some?
    ensures CountPushes(steps) <= if s.producer.Checked? then 1 else 0
    decreases |steps|
  {
    hide Next;
    if steps == [] {
    } else {
      StateMonotone(c, s, steps[0]);
      NoNewSubmission(c, s, steps[0]);
      NoPushAfterStop(c, Next(c, s, steps[0]).value, steps[1..]);
    }
  }

  lemma NoNewSubmission(c: Config, s: Sys, step: Step)
    requires !s.state.Accepting? && Next(c, s, step).Some?
    ensures step.Push? ==> s.producer.Checked?
    ensures Next(c, s, step).value.producer.Checked? ==> s.producer.Checked? && !step.Push?
  {
    hide ControllerStep, KidStep, DispatchStep, ConsumerStep, CollectStep;
    if OfController(step) {
      ControllerFrame(s, step);
    } else if OfKid(step) {
      KidFrame(c, s, step.i, step);
    } else if step.Collect? {
      CollectFrame(c, s, step.i, step.how, step.respawned);
    } else if !OfProducer(step) {
      if InDispatch(s) {
        DispatchFrame(c, s, step);
      } else {
        ConsumerFrame(s, step);
      }
    }
  }

  // ---- What a drain returns ---------------------------------------------------------------

  /** The accounts only grow, ids keep their arguments, and only stop_immediately() discards a task. */
  ghost predicate Extends(b: Books, b': Books) {
    && b.delivered <= b'.delivered && b.unreported <= b'.unreported && b.lost <= b'.lost
    && (forall id | id in b.loc :: id in b'.loc && (b'.loc[id].Dropped? ==> b.loc[id].Dropped?))
    && (forall id | id in b.args :: id in b'.args && b'.args[id] == b.args[id])
  }

  lemma ExtendsStep(c: Config, s: Sys, step: Step)
    requires Balanced(s.books, c.budget) && Next(c, s, step).Some? && !step.KillAll?
    ensures Extends(s.books, Next(c, s, step).value.books)
  {
    hide Next, BooksChange, Balanced;
    BooksStep(c, s, step);
    ExtendsChange(c, s, step, Next(c, s, step).value.books);
  }

  lemma ExtendsChange(c: Config, s: Sys, step: Step, b: Books)
    requires Balanced(s.books, c.budget) && BooksChange(c, s, step, b) && !step.KillAll?
    ensures Extends(s.books, b)
  {
    hide Balanced, Extends, Attempted, Ledger.Collected, Ledger.Push;
    if step.Push? {
      ExtendsPush(s.books, s.producer.args, c.budget);
    } else if step.Collect? {
      var r, reusable :| b == Ledger.Collected(s.books, step.i, r, reusable, step.respawned);
      ExtendsCollected(s.books, step.i, r, reusable, step.respawned);
    } else if SettlesHead(step) {
      ExtendsAttempted(s.books, s.consumer.i, AttemptOf(s, step), c.budget);
    } else if step.Spawn? {
      ExtendsAttempted(s.books, s.consumer.i, SpawnFailed, c.budget);
      ExtendsSlot(s.books, s.consumer.i, Idle);
    } else if step.SendFail? {
      ExtendsSlot(s.books, s.consumer.i, Broken);
    } else {
      ExtendsItself(s.books);
    }
  }

  lemma ExtendsItself(b: Books)
    ensures Extends(b, b)
  {}

  lemma ExtendsSlot(b: Books, i: nat, slot: Slot)
    requires i < |b.pool.slots|
    ensures Extends(b, SetSlot(b, i, slot))
  {}

  lemma ExtendsPush(b: Books, args: Val, budget: nat)
    requires Balanced(b, budget)
    ensures Extends(b, Ledger.Push(b, args))
  {
    hide CountsOk, AccountsOk, SlotsOk, TaskOk;
    assert b.pool.nextId !in b.loc;
  }

  lemma ExtendsAttempted(b: Books, i: nat, a: Attempt, budget: nat)
    requires i < |b.pool.slots| && b.pool.pending != []
    ensures Extends(b, Attempted(b, i, a, budget))
  {}

  lemma ExtendsCollected(b: Books, i: nat, r: TaskResult, reusable: bool, respawned: bool)
    requires i < |b.pool.slots| && b.pool.slots[i].Busy?
    ensures Extends(b, Ledger.Collected(b, i, r, reusable, respawned))
  {}

  lemma {:induction false} ExtendsRun(c: Config, s: Sys, steps: seq<Step>)
    requires Inv(c, s) && Run(c, s, steps).Some? && forall k | 0 <= k < |steps| :: !steps[k].KillAll?
    ensures Extends(s.books, Run(c, s, steps).value.books)
    decreases |steps|
  {
    hide Balanced, KidOk, BegunOk, Honest, Shape;
    if steps == [] {
    } else {
      ExtendsStep(c, s, steps[0]);
      StepKeeps(c, s, steps[0]);
      assert forall k | 0 <= k < |steps[1..]| :: steps[1..][k] == steps[k + 1];
      ExtendsRun(c, Next(c, s, steps[0]).value, steps[1..]);
    }
  }

  /** Exactly one of the results from number `from` on answers this task, and no earlier one does. */
  ghost predicate AnsweredOnce(b: Books, from: nat, id: nat) {
    && (exists k :: from <= k < |b.delivered| && b.delivered[k].taskId == id)
    && forall j, k | 0 <= j < |b.delivered| && 0 <= k < |b.delivered| && b.delivered[j].taskId == id
         && b.delivered[k].taskId == id :: j == k
  }

  /** Every result carries the arguments submitted under its id. */
  predicate OwnArgs(b: Books) {
    forall r | r in b.delivered :: r.taskId in b.args && r.args == b.args[r.taskId]
  }

  predicate InPool(b: Books, id: nat) {
    id in b.loc && (b.loc[id].Pending? || b.loc[id].InFlight?)
  }

  /** A drain, however threads interleave, without an immediate stop and without an exception that takes a task: every
      task that was pending or in flight has been answered exactly once, with its own arguments, and as many results
      were returned as there were tasks. */
  lemma DrainReturnsAll(c: Config, s: Sys, steps: seq<Step>)
    requires c.budget >= 1 && Reachable(c, s) && Run(c, s, steps).Some?
    requires forall k | 0 <= k < |steps| :: !steps[k].Push? && !steps[k].KillAll?
    requires var b := Run(c, s, steps).value.books;
      !HasWork(b.pool) && |b.lost| == |s.books.lost| && |b.unreported| == |s.books.unreported|
    ensures var b := Run(c, s, steps).value.books;
      && (forall id | InPool(s.books, id) :: AnsweredOnce(b, |s.books.delivered|, id))
      && OwnArgs(b)
      && |b.delivered| == |s.books.delivered| + |s.books.pool.pending| + CountBusy(s.books.pool.slots)
  {
    hide Next, Run, Balanced, KidOk, BegunOk, Honest, Shape, HasWork;
    var s' := Run(c, s, steps).value;
    ReachableInv(c, s);
    RunKeeps(c, s, steps);
    ExtendsRun(c, s, steps);
    SameSubmissions(c, s, steps);
    forall id | InPool(s.books, id)
      ensures AnsweredOnce(s'.books, |s.books.delivered|, id)
    {
      DrainedTask(s.books, s'.books, c.budget, id);
    }
    DrainCount(s.books, s'.books, c.budget);
    HonestArgs(c, s');
  }

  lemma DrainedTask(b: Books, b': Books, budget: nat, id: nat)
    requires Balanced(b, budget) && Balanced(b', budget) && Extends(b, b') && InPool(b, id) && !HasWork(b'.pool)
    requires |b'.lost| == |b.lost| && |b'.unreported| == |b.unreported|
    ensures AnsweredOnce(b', |b.delivered|, id)
  {
    hide CountsOk, IdsOk, TaskOk;
    assert b'.loc[id].Delivered?;
    var k := b'.loc[id].k;
    assert b'.delivered[k].taskId == id;
  }

  lemma DrainCount(b: Books, b': Books, budget: nat)
    requires Balanced(b, budget) && Balanced(b', budget) && !HasWork(b'.pool)
    requires |b'.lost| == |b.lost| && |b'.unreported| == |b.unreported| && b'.dropped == b.dropped
    requires b'.pool.submitted == b.pool.submitted
    ensures |b'.delivered| == |b.delivered| + |b.pool.pending| + CountBusy(b.pool.slots)
  {
    CountNone(b'.pool.slots);
  }

  lemma HonestArgs(c: Config, s: Sys)
    requires Inv(c, s)
    ensures OwnArgs(s.books)
  {
    hide KidOk, BegunOk, Balanced, Shape;
  }

  lemma {:induction false} SameSubmissions(c: Config, s: Sys, steps: seq<Step>)
    requires Run(c, s, steps).Some? && forall k | 0 <= k < |steps| :: !steps[k].Push? && !steps[k].KillAll?
    ensures Run(c, s, steps).value.books.pool.submitted == s.books.pool.submitted
    ensures Run(c, s, steps).value.books.dropped == s.books.dropped
    decreases |steps|
  {
    hide Next;
    if steps == [] {
    } else {
      BooksStep(c, s, steps[0]);
      assert forall k | 0 <= k < |steps[1..]| :: steps[1..][k] == steps[k + 1];
      SameSubmissions(c, Next(c, s, steps[0]).value, steps[1..]);
    }
  }
}
