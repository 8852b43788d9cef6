/** The condition variable between submit(), stop(), stop_immediately() and the sleeping consumer. */
module Wakeup {
  import opened Codec
  import opened Frame
  import opened WorkerSpec
  import opened PoolSpec
  import opened Ledger
  import opened System
  import opened Safety

  predicate Waiting(s: Sys) {
    s.consumer.Gap? || s.consumer.Asleep?
  }

  predicate WakeInv(s: Sys) {
    && (s.consumer.Gap? ==> s.books.pool.pending == [] && !s.producer.Checked?)
    && (s.consumer.Asleep? && s.books.pool.pending != [] ==> s.producer.OwesOne?)
    && (Waiting(s) && s.state.Halted? ==> s.controller.KillStored? || (s.consumer.Asleep? && s.controller.OwesKill?))
    && (Waiting(s) && s.state.Finishing? ==> s.controller.OwesStop? || s.missed)
    && (s.missed ==> Waiting(s) && !s.state.Accepting?)
    && (s.controller.KillStored? || s.controller.OwesKill? ==> s.state.Halted?)
    && (s.controller.OwesStop? ==> !s.state.Accepting?)
  }

  lemma WakeStep(c: Config, s: Sys, step: Step)
    requires WakeInv(s) && Next(c, s, step).Some?
    ensures WakeInv(Next(c, s, step).value)
  {
    hide ProducerStep, ControllerStep, KidStep, DispatchStep, ConsumerStep, CollectStep;
    if OfProducer(step) {
      WakeProducer(c, s, step);
    } else if OfController(step) {
      WakeController(s, step);
    } else if OfKid(step) {
      KidFrame(c, s, step.i, step);
    } else if step.Collect? {
      WakeCollect(c, s, step.i, step.how, step.respawned);
    } else if InDispatch(s) {
      WakeDispatch(c, s, step);
    } else {
      WakeConsumer(s, step);
    }
  }

  lemma WakeProducer(c: Config, s: Sys, step: Step)
    requires WakeInv(s) && ProducerStep(c, s, step).Some?
    ensures WakeInv(ProducerStep(c, s, step).value)
  {}

  lemma WakeController(s: Sys, step: Step)
    requires WakeInv(s) && ControllerStep(s, step).Some?
    ensures WakeInv(ControllerStep(s, step).value)
  {}

  lemma WakeConsumer(s: Sys, step: Step)
    requires WakeInv(s) && ConsumerStep(s, step).Some?
    ensures WakeInv(ConsumerStep(s, step).value)
  {}

  lemma WakeDispatch(c: Config, s: Sys, step: Step)
    requires WakeInv(s) && InDispatch(s) && DispatchStep(c, s, step).Some?
    ensures WakeInv(DispatchStep(c, s, step).value)
  {
    hide Attempted, SetSlot, DispatchSlot, IsRequest;
  }

  lemma WakeCollect(c: Config, s: Sys, i: nat, how: How, respawned: bool)
    requires WakeInv(s) && i < |s.kids| && i < |s.books.pool.slots| && CollectStep(c, s, i, how, respawned).Some?
    ensures WakeInv(CollectStep(c, s, i, how, respawned).value)
  {
    hide Classify, Ledger.Collected;
  }

  lemma {:induction false} WakeRun(c: Config, s: Sys, steps: seq<Step>)
    requires WakeInv(s) && Run(c, s, steps).Some?
    ensures WakeInv(Run(c, s, steps).value)
    decreases |steps|
  {
    if steps == [] {
    } else {
      WakeStep(c, s, steps[0]);
      WakeRun(c, Next(c, s, steps[0]).value, steps[1..]);
    }
  }

  lemma ReachableWakes(c: Config, s: Sys)
    requires Reachable(c, s)
    ensures WakeInv(s)
  {
    var steps :| Run(c, Init(c), steps) == Some(s);
    WakeRun(c, Init(c), steps);
  }

  /** No lost wakeup for submit() and stop_immediately(): while the consumer sleeps although there is work or
      the pool is stopped, the responsible thread has its notification still ahead of it. */
  lemma NoLostWakeup(c: Config, s: Sys)
    requires Reachable(c, s) && s.consumer.Asleep?
    ensures s.books.pool.pending != [] ==> s.producer.OwesOne?
    ensures s.state.Halted? ==> s.controller.KillStored? || s.controller.OwesKill?
  {
    ReachableWakes(c, s);
  }

  // ---- stop() ------------------------------------------------------------------------------

  /** A consumer that sleeps in a finishing pool either has a stop() notification coming or has missed it. */
  lemma AsleepWhileFinishing(c: Config, s: Sys)
    requires Reachable(c, s) && s.consumer.Asleep? && s.state.Finishing?
    ensures s.controller.OwesStop? || s.missed
  {
    ReachableWakes(c, s);
  }

  /** Nobody is left who would wake the consumer. */
  predicate Stuck(s: Sys) {
    s.consumer.Asleep? && s.state.Finishing? && s.producer.Outside? && s.controller.NoStop?
  }

  /** Such a consumer sleeps for ever unless stop() or stop_immediately() is called again or the wait ends by itself. */
  lemma {:induction false} StuckForever(c: Config, s: Sys, steps: seq<Step>)
    requires Stuck(s) && Run(c, s, steps).Some?
    requires forall k | 0 <= k < |steps| :: !steps[k].Spurious? && !steps[k].StopCas? && !steps[k].KillStore?
    ensures Stuck(Run(c, s, steps).value)
    decreases |steps|
  {
    if steps == [] {
    } else {
      StuckStep(c, s, steps[0]);
      assert forall k | 0 <= k < |steps[1..]| :: steps[1..][k] == steps[k + 1];
      StuckForever(c, Next(c, s, steps[0]).value, steps[1..]);
    }
  }

  lemma StuckStep(c: Config, s: Sys, step: Step)
    requires Stuck(s) && Next(c, s, step).Some? && !step.Spurious? && !step.StopCas? && !step.KillStore?
    ensures Stuck(Next(c, s, step).value)
  {
    hide ProducerStep, ControllerStep, KidStep, DispatchStep, ConsumerStep, CollectStep;
    if OfKid(step) {
      KidFrame(c, s, step.i, step);
    } else {
      StuckAlone(c, s, step);
    }
  }

  /** No other thread has a step left. */
  lemma StuckAlone(c: Config, s: Sys, step: Step)
    requires Stuck(s) && !OfKid(step) && !step.Spurious? && !step.StopCas? && !step.KillStore?
    ensures Next(c, s, step) == None
  {
    hide HasType, Classify, KidStep, DispatchStep, HasWork, Readable, Ledger.Push, Ledger.Killed, Ledger.Collected;
  }

  /** No second stop, and no wait that ends by itself. */
  predicate Undisturbed(steps: seq<Step>) {
    forall k | 0 <= k < |steps| :: !steps[k].Spurious? && !steps[k].StopCas? && !steps[k].KillStore?
  }

  /** Some continuation leaves the consumer asleep for good. */
  ghost predicate CanGetStuck(c: Config, s: Sys) {
    exists steps :: Undisturbed(steps) && Run(c, s, steps).Some? && Stuck(Run(c, s, steps).value)
  }

  /** stop() stores the new state and notifies without taking the mutex. Its wakeup is lost, so that the consumer can
      come to sleep for good, exactly when it notifies while the consumer stands between its predicate and blocking. */
  lemma StopMissesIff(c: Config, s: Sys)
    requires Reachable(c, s) && Next(c, s, StopNotify).Some?
    ensures CanGetStuck(c, Next(c, s, StopNotify).value) <==> s.consumer.Gap?
  {
    hide Run;
    ReachableWakes(c, s);
    var s' := Next(c, s, StopNotify).value;
    if s.consumer.Gap? {
      MissedGetsStuck(c, s');
    } else {
      WakeStep(c, s, StopNotify);
      forall steps | Undisturbed(steps) && Run(c, s', steps).Some?
        ensures !Stuck(Run(c, s', steps).value)
      {
        NotifiedNeverStuck(c, s', steps);
      }
    }
  }

  lemma MissedGetsStuck(c: Config, s: Sys)
    requires s.consumer.Gap? && s.state.Finishing? && s.controller.NoStop? && !s.producer.Checked?
    ensures CanGetStuck(c, s)
  {
    hide Run;
    var asleep := s.(consumer := Asleep);
    Done(c, asleep);
    if s.producer.Outside? {
      One(c, s, Block, []);
      assert Undisturbed([Block] + []) && Run(c, s, [Block] + []) == Some(asleep);
    } else {
      var rested := s.(producer := Outside);
      Done(c, rested.(consumer := Asleep));
      One(c, s, NotifyOne, [Block] + []);
      One(c, rested, Block, []);
      assert Undisturbed([NotifyOne] + ([Block] + []));
      assert Run(c, s, [NotifyOne] + ([Block] + [])) == Some(rested.(consumer := Asleep));
    }
  }

  /** A finishing or stopped pool whose notification was not missed. */
  predicate Notified(s: Sys) {
    WakeInv(s) && s.controller.NoStop? && !s.state.Accepting? && !s.missed
  }

  lemma {:induction false} NotifiedNeverStuck(c: Config, s: Sys, steps: seq<Step>)
    requires Notified(s) && Run(c, s, steps).Some? && Undisturbed(steps)
    ensures !Stuck(Run(c, s, steps).value)
    decreases |steps|
  {
    if steps == [] {
    } else {
      NotifiedStep(c, s, steps[0]);
      assert forall k | 0 <= k < |steps[1..]| :: steps[1..][k] == steps[k + 1];
      NotifiedNeverStuck(c, Next(c, s, steps[0]).value, steps[1..]);
    }
  }

  lemma NotifiedStep(c: Config, s: Sys, step: Step)
    requires Notified(s) && Next(c, s, step).Some? && !step.Spurious? && !step.StopCas? && !step.KillStore?
    ensures Notified(Next(c, s, step).value)
  {
    hide WakeInv, ProducerStep, KidStep, DispatchStep, CollectStep, ConsumerStep;
    WakeStep(c, s, step);
    if OfProducer(step) {
      ProducerFrame(c, s, step);
    } else if OfKid(step) {
      KidFrame(c, s, step.i, step);
    } else if step.Collect? {
      CollectFrame(c, s, step.i, step.how, step.respawned);
    } else if !OfController(step) {
      if InDispatch(s) {
        DispatchFrame(c, s, step);
      } else {
        ConsumerFrame(s, step);
      }
    }
  }

  const LOST_WAKEUP: seq<Step> := [
    Enter, TopCheck, LockDispatch, NextSlot, LockExpire, NextExpire, NextExpire, CheckWork, CheckSleep,
    StopCas, StopNotify, Block]

  /** A run that ends there: one worker, no task, and stop() between the consumer's predicate and its block. */
  lemma StopCanLoseItsWakeup(sig: Ty)
    ensures var c := Config(sig, 1, 1); Run(c, Init(c), LOST_WAKEUP).Some? && Stuck(Run(c, Init(c), LOST_WAKEUP).value)
  {
    hide Next, Run, Init;
    var c := Config(sig, 1, 1);
    var s0 := Init(c);
    var s4 := s0.(consumer := WantExpire);
    Steps4(c);
    var s8 := s0.(consumer := WantSleep);
    assert Run(c, s4, LOST_WAKEUP[4..8]) == Some(s8) by {
      assert LOST_WAKEUP[4..8] == [LockExpire, NextExpire, NextExpire, CheckWork];
      Steps8(c);
    }
    Steps12(c);
    assert LOST_WAKEUP == LOST_WAKEUP[..4] + (LOST_WAKEUP[4..8] + LOST_WAKEUP[8..]);
    RunAppend(c, s0, LOST_WAKEUP[..4], LOST_WAKEUP[4..8] + LOST_WAKEUP[8..]);
    RunAppend(c, s4, LOST_WAKEUP[4..8], LOST_WAKEUP[8..]);
  }

  lemma Steps4(c: Config)
    requires c.workers == 1
    ensures Run(c, Init(c), LOST_WAKEUP[..4]) == Some(Init(c).(consumer := WantExpire))
  {
    hide KidStep, CollectStep, ProducerStep, ControllerStep, Receive, IsRequest;
    var s := Init(c);
    assert LOST_WAKEUP[..4] == [Enter] + ([TopCheck] + ([LockDispatch] + ([NextSlot] + [])));
    One(c, s, Enter, [TopCheck] + ([LockDispatch] + ([NextSlot] + [])));
    One(c, s.(consumer := Top), TopCheck, [LockDispatch] + ([NextSlot] + []));
    One(c, s.(consumer := WantDispatch), LockDispatch, [NextSlot] + []);
    One(c, s.(consumer := Dispatching(0)), NextSlot, []);
  }

  lemma Steps8(c: Config)
    requires c.workers == 1
    ensures Run(c, Init(c).(consumer := WantExpire), [LockExpire, NextExpire, NextExpire, CheckWork])
      == Some(Init(c).(consumer := WantSleep))
  {
    hide KidStep, CollectStep, ProducerStep, ControllerStep, DispatchStep, Run, FirstLookStep, Readable, Woken;
    var s := Init(c);
    assert [LockExpire, NextExpire, NextExpire, CheckWork]
      == [LockExpire] + ([NextExpire] + ([NextExpire] + ([CheckWork] + [])));
    One(c, s.(consumer := WantExpire), LockExpire, [NextExpire] + ([NextExpire] + ([CheckWork] + [])));
    One(c, s.(consumer := Expiring(0)), NextExpire, [NextExpire] + ([CheckWork] + []));
    One(c, s.(consumer := Expiring(1)), NextExpire, [CheckWork] + []);
    One(c, s.(consumer := WantWork), CheckWork, []);
    Done(c, s.(consumer := WantSleep));
  }

  lemma Steps12(c: Config)
    requires c.workers == 1
    ensures Run(c, Init(c).(consumer := WantSleep), LOST_WAKEUP[8..]).Some?
    ensures Stuck(Run(c, Init(c).(consumer := WantSleep), LOST_WAKEUP[8..]).value)
  {
    hide KidStep, CollectStep, ProducerStep, DispatchStep, Run;
    var s := Init(c).(consumer := WantSleep);
    assert LOST_WAKEUP[8..] == [CheckSleep] + ([StopCas] + ([StopNotify] + ([Block] + [])));
    One(c, s, CheckSleep, [StopCas] + ([StopNotify] + ([Block] + [])));
    var s1 := s.(consumer := Gap);
    One(c, s1, StopCas, [StopNotify] + ([Block] + []));
    var s2 := s1.(controller := OwesStop, state := Finishing);
    One(c, s2, StopNotify, [Block] + []);
    One(c, s2.(controller := NoStop, missed := true), Block, []);
    Done(c, s2.(controller := NoStop, missed := true, consumer := Asleep));
  }
}
