/** Order: without failed sends tasks are accepted in submission order, and one worker answers in that order. */
module Fifo {
  import opened Codec
  import opened Frame
  import opened WorkerSpec
  import opened PoolSpec
  import opened Ledger
  import opened System
  import opened Safety
  import Shutdown

  /** No failed send and no immediate stop; results may be of any kind. */
  predicate Orderly(step: Step) {
    !step.CannotSend? && !step.SendFail? && !step.KillAll?
  }

  /** The queue is the tail of the submission order; with one worker the results and the task in flight are the rest. */
  ghost predicate InOrder(b: Books, workers: nat) {
    && |b.pool.pending| < b.pool.nextId
    && (forall j | 0 <= j < |b.pool.pending| :: b.pool.pending[j].id == b.pool.nextId - |b.pool.pending| + j)
    && (workers == 1 && b.unreported == [] ==> OneWorker(b))
  }

  ghost predicate InOrderState(c: Config, s: Sys) {
    !s.consumer.Rejected? && InOrder(s.books, c.workers)
  }

  ghost predicate OneWorker(b: Books) {
    && |b.pool.slots| == 1
    && (forall k | 0 <= k < |b.delivered| :: b.delivered[k].taskId == k + 1)
    && (b.pool.slots[0].Busy? ==> b.pool.slots[0].id == |b.delivered| + 1)
    && b.pool.nextId - |b.pool.pending| == |b.delivered| + 1 + (if b.pool.slots[0].Busy? then 1 else 0)
  }

  lemma OrderStep(c: Config, s: Sys, step: Step)
    requires Shape(c, s) && InOrderState(c, s) && Orderly(step) && Next(c, s, step).Some?
    ensures InOrderState(c, Next(c, s, step).value)
  {
    hide ProducerStep, ControllerStep, KidStep, DispatchStep, ConsumerStep, CollectStep;
    if OfProducer(step) {
      OrderProducer(c, s, step);
    } else if OfController(step) {
      OrderController(c, s, step);
    } else if OfKid(step) {
      KidFrame(c, s, step.i, step);
    } else if step.Collect? {
      OrderCollect(c, s, step.i, step.how, step.respawned);
    } else if InDispatch(s) {
      OrderDispatch(c, s, step);
    } else {
      OrderConsumer(c, s, step);
    }
  }

  lemma OrderProducer(c: Config, s: Sys, step: Step)
    requires InOrderState(c, s) && ProducerStep(c, s, step).Some?
    ensures InOrderState(c, ProducerStep(c, s, step).value)
  {}

  lemma OrderController(c: Config, s: Sys, step: Step)
    requires InOrderState(c, s) && Orderly(step) && ControllerStep(s, step).Some?
    ensures InOrderState(c, ControllerStep(s, step).value)
  {}

  lemma OrderConsumer(c: Config, s: Sys, step: Step)
    requires InOrderState(c, s) && ConsumerStep(s, step).Some?
    ensures InOrderState(c, ConsumerStep(s, step).value)
  {}

  lemma OrderDispatch(c: Config, s: Sys, step: Step)
    requires Shape(c, s) && InOrderState(c, s) && Orderly(step) && InDispatch(s) && DispatchStep(c, s, step).Some?
    ensures InOrderState(c, DispatchStep(c, s, step).value)
  {
    hide InOrder, DispatchStep, Shutdown.BooksChange, Shape;
    var s' := DispatchStep(c, s, step).value;
    NotRejected(c, s, step);
    Shutdown.BooksDispatch(c, s, step);
    if step.SendDone? {
      SentToIdle(c, s);
      OrderTook(s.books, s.consumer.i, c.budget, c.workers);
      TookHead(c, s, s'.books);
    } else {
      OrderOther(c, s, step, s'.books);
    }
  }

  lemma NotRejected(c: Config, s: Sys, step: Step)
    requires InDispatch(s) && !s.consumer.Rejected? && Orderly(step) && DispatchStep(c, s, step).Some?
    ensures !DispatchStep(c, s, step).value.consumer.Rejected? && !step.Discard?
    ensures step.SendDone? ==> s.consumer.Sending?
    ensures !OfProducer(step) && !OfController(step) && !OfKid(step) && !step.Collect?
  {
    hide IsRequest, Attempted, SetSlot;
  }

  lemma SentToIdle(c: Config, s: Sys)
    requires Shape(c, s) && s.consumer.Sending?
    ensures s.consumer.i < |s.books.pool.slots| && s.books.pool.pending != []
      && s.books.pool.slots[s.consumer.i].Idle?
  {
    hide HasType, IsRequest;
  }

  lemma TookHead(c: Config, s: Sys, b: Books)
    requires Shutdown.BooksChange(c, s, SendDone, b)
    ensures Shutdown.AtSlot(s) && b == Attempted(s.books, s.consumer.i, Took, c.budget)
  {
    hide Attempted;
  }

  lemma OrderTook(b: Books, i: nat, budget: nat, workers: nat)
    requires InOrder(b, workers) && i < |b.pool.slots| && b.pool.pending != [] && b.pool.slots[i].Idle?
    ensures InOrder(Attempted(b, i, Took, budget), workers)
  {}

  lemma OrderOther(c: Config, s: Sys, step: Step, b: Books)
    requires InOrder(s.books, c.workers) && Shutdown.BooksChange(c, s, step, b) && Orderly(step)
    requires !step.SendDone? && !step.Discard? && !OfProducer(step) && !step.Collect?
    ensures InOrder(b, c.workers)
  {}

  lemma OrderCollect(c: Config, s: Sys, i: nat, how: How, respawned: bool)
    requires InOrderState(c, s) && i < |s.kids| && i < |s.books.pool.slots|
      && CollectStep(c, s, i, how, respawned).Some?
    ensures InOrderState(c, CollectStep(c, s, i, how, respawned).value)
  {
    hide Receive;
  }

  lemma {:induction false} OrderRun(c: Config, s: Sys, steps: seq<Step>)
    requires Inv(c, s) && InOrderState(c, s) && Run(c, s, steps).Some? && forall k | 0 <= k < |steps| ::
      Orderly(steps[k])
    ensures InOrderState(c, Run(c, s, steps).value)
    decreases |steps|
  {
    if steps == [] {
    } else {
      OrderStep(c, s, steps[0]);
      StepKeeps(c, s, steps[0]);
      assert forall k | 0 <= k < |steps[1..]| :: steps[1..][k] == steps[k + 1];
      OrderRun(c, Next(c, s, steps[0]).value, steps[1..]);
    }
  }

  /** On every run without failed sends the queue is exactly the tail of the submission order, so the next task
      accepted is always the oldest one not yet accepted. */
  lemma AcceptedInOrder(c: Config, steps: seq<Step>)
    requires c.budget >= 1 && Run(c, Init(c), steps).Some? && forall k | 0 <= k < |steps| :: Orderly(steps[k])
    ensures var p := Run(c, Init(c), steps).value.books.pool;
      forall j | 0 <= j < |p.pending| :: p.pending[j].id == p.nextId - |p.pending| + j
  {
    InitInv(c);
    OrderRun(c, Init(c), steps);
  }

  /** With one worker the results come back in submission order: the k-th result answers task k. */
  lemma OneWorkerAnswersInOrder(c: Config, steps: seq<Step>)
    requires c.budget >= 1 && c.workers == 1 && Run(c, Init(c), steps).Some? && forall k | 0 <= k < |steps| ::
      Orderly(steps[k])
    requires Run(c, Init(c), steps).value.books.unreported == []
    ensures var b := Run(c, Init(c), steps).value.books;
      forall k | 0 <= k < |b.delivered| :: b.delivered[k].taskId == k + 1
  {
    InitInv(c);
    OrderRun(c, Init(c), steps);
  }
}
