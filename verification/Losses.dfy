/** Failed restarts: which steps drop a result or a task, and what the counters say about it. */
module Losses {
  import opened Bytes
  import opened Codec
  import opened Frame
  import opened WorkerSpec
  import opened PoolSpec
  import opened Ledger
  import opened System
  import opened Safety
  import Timeouts

  /** A result is collected, its child is discarded, and the slot cannot be restarted. */
  predicate DropsResult(c: Config, s: Sys, step: Step) {
    && step.Collect? && !step.respawned && step.i < |s.kids| && step.i < |s.books.pool.slots|
    && s.books.pool.slots[step.i].Busy?
    && var r := Classify(c, s.kids[step.i], s.books.pool.slots[step.i].id, s.books.pool.slots[step.i].args, step.how);
       r.Some? && !r.value.1
  }

  /** The dispatch loop gives up the task at the head of the queue: it cannot be serialized, or its slot cannot be
      restarted after a failed send, or it has no attempt left. */
  predicate DropsTask(c: Config, s: Sys, step: Step) {
    step.CannotSend? ||
    (step.Discard? && (!step.respawned || (s.books.pool.pending != [] && Head(s).attempts + 1 >= c.budget)))
  }

  /** These are exactly the steps that drop a result, and that drop a task. */
  lemma DropStep(c: Config, s: Sys, step: Step)
    requires Next(c, s, step).Some?
    ensures Next(c, s, step).value.books.unreported ==
      s.books.unreported + if DropsResult(c, s, step) then [s.books.pool.slots[step.i].id] else []
    ensures DropsTask(c, s, step) ==> s.books.pool.pending != []
    ensures Next(c, s, step).value.books.lost == s.books.lost + if DropsTask(c, s, step) then [Head(s).id] else []
  {
    hide ProducerStep, ControllerStep, KidStep, DispatchStep, ConsumerStep, CollectStep, Classify;
    if OfProducer(step) {
      ProducerDrops(c, s, step);
    } else if OfController(step) {
      ControllerDrops(s, step);
    } else if OfKid(step) {
      KidFrame(c, s, step.i, step);
    } else if step.Collect? {
      CollectDrops(c, s, step.i, step.how, step.respawned);
    } else if InDispatch(s) {
      DispatchDrops(c, s, step);
    } else {
      ConsumerFrame(s, step);
      ConsumerDrops(c, s, step);
    }
  }

  lemma ProducerDrops(c: Config, s: Sys, step: Step)
    requires ProducerStep(c, s, step).Some?
    ensures var b := ProducerStep(c, s, step).value.books; b.unreported == s.books.unreported && b.lost == s.books.lost
  {
    hide HasType;
  }

  lemma ControllerDrops(s: Sys, step: Step)
    requires ControllerStep(s, step).Some?
    ensures var b := ControllerStep(s, step).value.books; b.unreported == s.books.unreported && b.lost == s.books.lost
  {}

  lemma ConsumerDrops(c: Config, s: Sys, step: Step)
    requires ConsumerStep(s, step).Some?
    ensures !DropsTask(c, s, step)
  {
    hide HasWork;
  }

  lemma CollectDrops(c: Config, s: Sys, i: nat, how: How, respawned: bool)
    requires i < |s.kids| && i < |s.books.pool.slots| && CollectStep(c, s, i, how, respawned).Some?
    ensures var b := CollectStep(c, s, i, how, respawned).value.books;
      && b.unreported ==
           s.books.unreported + (if DropsResult(c, s, Collect(i, how, respawned)) then [s.books.pool.slots[i].id]
             else [])
      && b.lost == s.books.lost
  {
    hide Receive, Classify;
  }

  lemma DispatchDrops(c: Config, s: Sys, step: Step)
    requires !step.Collect? && InDispatch(s) && DispatchStep(c, s, step).Some?
    ensures DropsTask(c, s, step) ==> s.books.pool.pending != []
    ensures var b := DispatchStep(c, s, step).value.books;
      && b.unreported == s.books.unreported
      && b.lost == s.books.lost + if DropsTask(c, s, step) then [Head(s).id] else []
  {
    hide IsRequest;
  }

  // ---- Over whole runs --------------------------------------------------------------------

  function CountResultsDropped(c: Config, s: Sys, steps: seq<Step>): nat
    decreases |steps|
  {
    if steps == [] then 0
    else
      (if DropsResult(c, s, steps[0]) then 1 else 0)
      + match Next(c, s, steps[0]) case Some(s') => CountResultsDropped(c, s', steps[1..]) case None => 0
  }

  function CountTasksDropped(c: Config, s: Sys, steps: seq<Step>): nat
    decreases |steps|
  {
    if steps == [] then 0
    else
      (if DropsTask(c, s, steps[0]) then 1 else 0)
      + match Next(c, s, steps[0]) case Some(s') => CountTasksDropped(c, s', steps[1..]) case None => 0
  }

  lemma {:induction false} DropRun(c: Config, s: Sys, steps: seq<Step>)
    requires Run(c, s, steps).Some?
    ensures var b := Run(c, s, steps).value.books;
      && |b.unreported| == |s.books.unreported| + CountResultsDropped(c, s, steps)
      && |b.lost| == |s.books.lost| + CountTasksDropped(c, s, steps)
    decreases |steps|
  {
    hide Next, DropsResult, DropsTask;
    if steps == [] {
    } else {
      DropStep(c, s, steps[0]);
      DropRun(c, Next(c, s, steps[0]).value, steps[1..]);
    }
  }

  /** finished() counts every collected result, so it is the number of results that wait_one() returned exactly when no
      restart after a discarding result has failed; otherwise it is ahead by the number of those failures. */
  lemma FinishedIff(c: Config, steps: seq<Step>)
    requires c.budget >= 1 && Run(c, Init(c), steps).Some?
    ensures var b := Run(c, Init(c), steps).value.books;
      && b.pool.finished == |b.delivered| + CountResultsDropped(c, Init(c), steps)
      && (b.pool.finished == |b.delivered| <==> CountResultsDropped(c, Init(c), steps) == 0)
  {
    hide Next, Run, Init, CountResultsDropped, CountTasksDropped;
    DropRun(c, Init(c), steps);
    InitInv(c);
    RunKeeps(c, Init(c), steps);
    NothingDroppedYet(c);
    Counted(c, Run(c, Init(c), steps).value);
  }

  lemma Counted(c: Config, s: Sys)
    requires Inv(c, s)
    ensures s.books.pool.finished == |s.books.delivered| + |s.books.unreported|
    ensures s.books.pool.submitted == |s.books.pool.pending| + CountBusy(s.books.pool.slots) + |s.books.delivered|
      + |s.books.unreported| + |s.books.lost| + s.books.dropped
  {
    hide KidOk, BegunOk, Honest, Shape, QueueOk, SlotsOk, AccountsOk, IdsOk;
  }

  lemma NothingDroppedYet(c: Config)
    ensures Init(c).books.unreported == [] && Init(c).books.lost == []
  {}

  /** Without an immediate stop, the submitted tasks are those that are queued, in flight or answered exactly when on
      the way no result was dropped by a failed restart and no task by a delivery that was given up. */
  lemma NothingMissingIff(c: Config, steps: seq<Step>)
    requires c.budget >= 1 && Run(c, Init(c), steps).Some?
    requires Run(c, Init(c), steps).value.books.dropped == 0
    ensures var b := Run(c, Init(c), steps).value.books;
      b.pool.submitted == |b.pool.pending| + CountBusy(b.pool.slots) + |b.delivered| <==>
      CountResultsDropped(c, Init(c), steps) == 0 && CountTasksDropped(c, Init(c), steps) == 0
  {
    hide Next, Run, Init, CountResultsDropped, CountTasksDropped;
    DropRun(c, Init(c), steps);
    InitInv(c);
    RunKeeps(c, Init(c), steps);
    NothingDroppedYet(c);
    Counted(c, Run(c, Init(c), steps).value);
  }

  // ---- Runs in which it happens -----------------------------------------------------------

  /** The child dies, its exit is collected, and the slot cannot be restarted. */
  function Dying(w: WaitStatus): seq<Step> {
    [KidDie(0, w)] + ([LockExpire] + ([Collect(0, ChildExited, false)] + []))
  }

  /** For every task and every way to die there is a run after which finished() is 1 and no result was returned. */
  lemma FinishedWithoutResult(c: Config, args: Val, frame: Octets, w: WaitStatus)
    requires c.workers == 1 && c.budget >= 1 && HasType(c.sig, args) && IsRequest(c.sig, frame, 1, args)
    ensures var steps := Timeouts.Delivering(args, frame) + Dying(w);
      && Run(c, Init(c), steps).Some?
      && var b := Run(c, Init(c), steps).value.books;
         b.pool.finished == 1 && b.delivered == [] && b.unreported == [1]
  {
    hide Receive, HasType, IsRequest, Run, Next, Init, Timeouts.Delivered, Timeouts.Delivering, Dying;
    Timeouts.Delivers(c, args, frame);
    Dies(c, args, frame, w);
    RunAppend(c, Init(c), Timeouts.Delivering(args, frame), Dying(w));
  }

  lemma Dies(c: Config, args: Val, frame: Octets, w: WaitStatus)
    requires c.workers == 1
    ensures var s := Timeouts.Delivered(c, args, frame);
      && Run(c, s, Dying(w)).Some?
      && var b := Run(c, s, Dying(w)).value.books; b.pool.finished == 1 && b.delivered == [] && b.unreported == [1]
  {
    hide Receive, ProducerStep, ControllerStep, DispatchStep, Run;
    var s := Timeouts.Delivered(c, args, frame);
    One(c, s, KidDie(0, w), [LockExpire] + ([Collect(0, ChildExited, false)] + []));
    var s1 := Next(c, s, KidDie(0, w)).value;
    One(c, s1, LockExpire, [Collect(0, ChildExited, false)] + []);
    var s2 := s1.(consumer := Expiring(0));
    One(c, s2, Collect(0, ChildExited, false), []);
    Done(c, Next(c, s2, Collect(0, ChildExited, false)).value);
  }

  /** One task is submitted, its first send fails, and the slot cannot be restarted. */
  function GivingUp(args: Val, frame: Octets): seq<Step> {
    [BeginSubmit(args)] + ([Push] + ([NotifyOne] + ([Enter] + ([TopCheck] + ([LockDispatch] + ([BeginSend(frame)]
    + ([SendFail(Disconnected)] + ([Discard(false)] + []))))))))
  }

  /** However many attempts a task may have, there is a run in which its first failed send loses it: it is neither
      queued nor in flight nor answered, and its target call never began. */
  lemma TaskLostWithAttemptsLeft(c: Config, args: Val, frame: Octets)
    requires c.workers == 1 && c.budget >= 1 && HasType(c.sig, args) && IsRequest(c.sig, frame, 1, args)
    ensures Run(c, Init(c), GivingUp(args, frame)).Some?
    ensures var s := Run(c, Init(c), GivingUp(args, frame)).value;
      && s.books.lost == [1] && s.books.pool.submitted == 1 && !HasWork(s.books.pool) && s.books.delivered == []
      && s.begun == []
  {
    hide Receive, HasType, IsRequest, KidStep, CollectStep, ControllerStep, DispatchStep, Run;
    FramesNonEmpty(c, frame, 1);
    var s := Init(c);
    var tail := [BeginSend(frame)] + ([SendFail(Disconnected)] + ([Discard(false)] + []));
    One(c, s, BeginSubmit(args), [Push] + ([NotifyOne] + ([Enter] + ([TopCheck] + ([LockDispatch] + tail)))));
    One(c, s.(producer := Checked(args)), Push, [NotifyOne] + ([Enter] + ([TopCheck] + ([LockDispatch] + tail))));
    var q := s.(books := Ledger.Push(Opened(1), args));
    One(c, q.(producer := OwesOne), NotifyOne, [Enter] + ([TopCheck] + ([LockDispatch] + tail)));
    One(c, q, Enter, [TopCheck] + ([LockDispatch] + tail));
    One(c, q.(consumer := Top), TopCheck, [LockDispatch] + tail);
    One(c, q.(consumer := WantDispatch), LockDispatch, tail);
    Abandons(c, q, args, frame);
  }

  lemma Abandons(c: Config, q: Sys, args: Val, frame: Octets)
    requires c.workers == 1 && IsRequest(c.sig, frame, 1, args) && frame != []
      && q == Init(c).(books := Ledger.Push(Opened(1), args))
    ensures var s := Run(c, q.(consumer := Dispatching(0)),
                         [BeginSend(frame)] + ([SendFail(Disconnected)] + ([Discard(false)] + [])));
      && s.Some? && s.value.books.lost == [1] && s.value.books.pool.submitted == 1 && !HasWork(s.value.books.pool)
      && s.value.books.delivered == [] && s.value.begun == []
  {
    hide Receive, IsRequest, KidStep, CollectStep, ControllerStep, ProducerStep, Run;
    One(c, q.(consumer := Dispatching(0)), BeginSend(frame), [SendFail(Disconnected)] + ([Discard(false)] + []));
    var s := q.(consumer := Consumer.Sending(0, frame, frame));
    One(c, s, SendFail(Disconnected), [Discard(false)] + []);
    var s' := Next(c, s, SendFail(Disconnected)).value;
    One(c, s', Discard(false), []);
    Done(c, Next(c, s', Discard(false)).value);
  }
}
