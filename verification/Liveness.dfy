/** A pool that has been told to stop can always be drained, with one exception: a consumer that sleeps, or is about to,
    with nobody left to wake it. */
module Liveness {
  import opened Bytes
  import opened Codec
  import opened Frame
  import opened WorkerSpec
  import opened PoolSpec
  import opened Ledger
  import opened System
  import opened Safety
  import opened Shutdown
  import opened Wakeup

  // ---- Continuations without failures ------------------------------------------------------

  ghost predicate CanSerialize(c: Config, t: Task) {
    exists frame :: IsRequest(c.sig, frame, t.id, t.args)
  }

  /** A step in which nothing fails: every restart succeeds, a task is given up only when it cannot be serialized or has
      used up its attempts, nobody dies, polls work, and nobody stops the pool again. */
  ghost predicate Smooth(c: Config, s: Sys, step: Step) {
    match step
    case BeginSubmit(_) => false
    case StopCas => false
    case KillStore => false
    case KillAll => false
    case KillNotify => false
    case Spurious => false
    case Spawn(ok) => ok
    case CannotSend => s.books.pool.pending != [] && !CanSerialize(c, Head(s))
    case SendFail(_) => false
    case Discard(respawned) => respawned
    case PollError => false
    case Collect(_, how, respawned) => respawned && (how.GotPacket? || how.ChildExited?)
    case KidDie(_, _) => false
    case _ => true
  }

  ghost predicate SmoothRun(c: Config, s: Sys, steps: seq<Step>)
    decreases |steps|
  {
    steps == [] ||
    (Smooth(c, s, steps[0]) && (Next(c, s, steps[0]).Some? ==> SmoothRun(c, Next(c, s, steps[0]).value, steps[1..])))
  }

  /** wait_one() has returned or thrown, and nothing is left to do. */
  predicate Finished(s: Sys) {
    Drained(s) && s.consumer.Away?
  }

  /** Some continuation without failures ends there. */
  ghost predicate CanFinish(c: Config, s: Sys) {
    exists steps :: SmoothRun(c, s, steps) && Run(c, s, steps).Some? && Finished(Run(c, s, steps).value)
  }

  lemma FinishedNow(c: Config, s: Sys)
    requires Finished(s)
    ensures CanFinish(c, s)
  {
    hide Next, Finished;
    Done(c, s);
    assert SmoothRun(c, s, []);
  }

  lemma StepThen(c: Config, s: Sys, step: Step)
    requires Smooth(c, s, step) && Next(c, s, step).Some? && CanFinish(c, Next(c, s, step).value)
    ensures CanFinish(c, s)
  {
    hide Next, Finished, Smooth, Run;
    var s' := Next(c, s, step).value;
    var rest :| SmoothRun(c, s', rest) && Run(c, s', rest).Some? && Finished(Run(c, s', rest).value);
    One(c, s, step, rest);
    assert ([step] + rest)[0] == step && ([step] + rest)[1..] == rest;
    assert SmoothRun(c, s, [step] + rest);
  }

  // ---- Facts about reachable states --------------------------------------------------------

  predicate Fits(c: Config, s: Sys) {
    && |s.books.pool.slots| == c.workers && s.books.pool.nextId <= SIZE_LIMIT
    && (s.producer.Checked? ==> s.books.pool.nextId < SIZE_LIMIT)
  }

  lemma FitsStep(c: Config, s: Sys, step: Step)
    requires Fits(c, s) && Next(c, s, step).Some?
    ensures Fits(c, Next(c, s, step).value)
  {
    hide Next, BooksChange;
    BooksStep(c, s, step);
    FitsBooks(c, s, step, Next(c, s, step).value.books);
    FitsProducer(c, s, step);
  }

  lemma FitsBooks(c: Config, s: Sys, step: Step, b: Books)
    requires BooksChange(c, s, step, b)
    ensures |b.pool.slots| == |s.books.pool.slots|
    ensures b.pool.nextId == s.books.pool.nextId + if step.Push? then 1 else 0
    ensures step.Push? ==> s.producer.Checked?
  {
    hide CountBusy;
  }

  lemma FitsProducer(c: Config, s: Sys, step: Step)
    requires Next(c, s, step).Some?
    ensures Next(c, s, step).value.producer.Checked? ==>
      !step.Push? && (s.producer.Checked? || s.books.pool.nextId < SIZE_LIMIT)
  {
    hide HasType, ControllerStep, KidStep, DispatchStep, ConsumerStep, CollectStep, Ledger.Push;
    if OfController(step) {
      ControllerFrame(s, step);
    } else if OfKid(step) {
      KidFrame(c, s, step.i, step);
    } else if step.Collect? {
      CollectFrame(c, s, step.i, step.how, step.respawned);
    } else if !OfProducer(step) {
      if InDispatch(s) {
        DispatchFrame(c, s, step);
      } else {
        ConsumerFrame(s, step);
      }
    }
  }

  lemma {:induction false} FitsRun(c: Config, s: Sys, steps: seq<Step>)
    requires Fits(c, s) && Run(c, s, steps).Some?
    ensures Fits(c, Run(c, s, steps).value)
    decreases |steps|
  {
    hide Next;
    if steps == [] {
    } else {
      FitsStep(c, s, steps[0]);
      FitsRun(c, Next(c, s, steps[0]).value, steps[1..]);
    }
  }

  /** Nobody will wake a consumer that is asleep or about to be. */
  predicate Doomed(s: Sys) {
    Waiting(s) && s.state.Finishing? && s.producer.Outside? && s.controller.NoStop?
  }

  ghost predicate Live(c: Config, s: Sys) {
    Inv(c, s) && WakeInv(s) && Fits(c, s) && c.workers >= 1 && WellFormed(c.sig) && s.state.Finishing? && !Doomed(s)
  }

  // ---- What goes down ----------------------------------------------------------------------

  function Stage(s: Sys): nat {
    match s.producer case Checked(_) => 2 case OwesOne => 1 case Outside => 0
  }

  predicate AnyBusy(s: Sys) {
    exists i :: 0 <= i < |s.books.pool.slots| && s.books.pool.slots[i].Busy?
  }

  predicate BusyUpTo(s: Sys, i: nat) {
    forall j | 0 <= j < i && j < |s.books.pool.slots| :: s.books.pool.slots[j].Busy?
  }

  /** The consumer is past its dispatch pass. */
  predicate PastDispatch(s: Sys) {
    s.consumer.WantExpire? || s.consumer.Expiring? || s.consumer.Rechecking? || s.consumer.WantWork?
      || s.consumer.WantPoll? || s.consumer.Polling?
  }

  /** How many more rounds of wait_one() may go by before a task is delivered or a result collected. */
  function Lap(s: Sys): nat {
    if InDispatch(s) then (if BusyUpTo(s, s.consumer.i) then 1 else 3)
    else if PastDispatch(s) then
      (if !AnyBusy(s) && (s.books.pool.pending != [] || s.consumer.WantPoll? || s.consumer.Polling?) then 2 else 0)
    else 1
  }

  /** How far the child at the first busy slot is from having something to collect. */
  function KidStage(k: Kid, c: Config): nat {
    if k.NoKid? then 0
    else match k.phase
      case Dead(_, _) => 0
      case Await => if Receive(c.sig, k.out).Got? then 0 else 3
      case Running(_, _) => 2
      case Replying(_) => 1
  }

  function FirstBusy(s: Sys): (i: nat)
    requires AnyBusy(s)
    ensures i < |s.books.pool.slots| && s.books.pool.slots[i].Busy?
  {
    FirstBusyIn(s.books.pool.slots)
  }

  function FirstBusyIn(slots: seq<Slot>): (i: nat)
    requires exists j :: 0 <= j < |slots| && slots[j].Busy?
    ensures i < |slots| && slots[i].Busy?
  {
    if slots[0].Busy? then 0
    else
      assert exists j :: 0 <= j < |slots[1..]| && slots[1..][j].Busy? by {
        var j :| 0 <= j < |slots| && slots[j].Busy?;
        assert slots[1..][j - 1].Busy?;
      }
      1 + FirstBusyIn(slots[1..])
  }

  function SlotWork(s: Sys, i: nat): nat {
    if i >= |s.books.pool.slots| then 0
    else match s.books.pool.slots[i] case Stopped => 3 case Idle => 2 case _ => 0
  }

  /** The steps left in this round. */
  function Pos(c: Config, s: Sys): nat {
    var n := |s.books.pool.slots|;
    match s.consumer
    case Gap => 5 * n + 30
    case Asleep => 5 * n + 29
    case WantSleep => 5 * n + 28
    case Away => 5 * n + 28
    case Top => 5 * n + 27
    case WantDispatch => 5 * n + 26
    case Dispatching(i) => 10 + 5 * (if i <= n then n - i else 0) + SlotWork(s, i)
    case Sending(i, _, left) => 10 + 5 * (if i <= n then n - i else 0) + (if left == [] then 0 else 1)
    case Rejected(_, _, _, _) => 0
    case WantExpire => 5 * n + 20
    case Expiring(i) => 10 + 5 * (if i <= n then n - i else 0)
    case Rechecking(i, polling, _) =>
      (if polling then 4 else 11 + 5 * (if i < n then n - i - 1 else 0))
      + (if i < |s.kids| then KidStage(s.kids[i], c) else 0)
    case WantWork => 9
    case WantPoll => 8
    case Polling => if AnyBusy(s) && FirstBusy(s) < |s.kids| then KidStage(s.kids[FirstBusy(s)], c) else 0
  }

  ghost predicate Less(c: Config, t: Sys, s: Sys) {
    var r, r' := Rank(s.books.pool, c.budget), Rank(t.books.pool, c.budget);
    || Stage(t) < Stage(s)
    || (Stage(t) == Stage(s) && r' < r)
    || (Stage(t) == Stage(s) && r' == r && Lap(t) < Lap(s))
    || (Stage(t) == Stage(s) && r' == r && Lap(t) == Lap(s) && Pos(c, t) < Pos(c, s))
  }

  /** One step further: something goes down, or the goal is reached. */
  ghost predicate Closer(c: Config, s: Sys, step: Step) {
    && Smooth(c, s, step) && Next(c, s, step).Some?
    && var t := Next(c, s, step).value;
       (t.state.Finishing? && !Doomed(t) && Less(c, t, s)) || Finished(t)
  }

  lemma CloserProducer(c: Config, s: Sys) returns (step: Step)
    requires Live(c, s) && !s.producer.Outside? && !s.consumer.Gap?
    ensures Closer(c, s, step)
  {
    hide Inv, Rank, Lap, Pos, HasType, Ledger.Push, HasWork;
    step := if s.producer.Checked? then Push else NotifyOne;
  }

  /** Outside the dispatch pass and the poll, with the producer away or a notification to come. */
  lemma CloserWaiting(c: Config, s: Sys) returns (step: Step)
    requires Live(c, s) && (s.producer.Outside? || s.consumer.Gap?)
    requires s.consumer.Gap? || s.consumer.Asleep? || s.consumer.WantSleep? || s.consumer.Away? || s.consumer.Top?
      || s.consumer.WantDispatch?
    ensures Closer(c, s, step)
  {
    hide Inv, WakeInv, Fits, Closer, Doomed, WellFormed;
    if s.consumer.Asleep? {
      step := StopNotify;
      CloserWoken(c, s);
    } else if s.consumer.Gap? || s.consumer.WantSleep? {
      step := if s.consumer.Gap? then Block else CheckSleep;
      CloserSleep(c, s, step);
    } else {
      step := if s.consumer.Away? then Enter else if s.consumer.Top? then TopCheck else LockDispatch;
      CloserRound(c, s, step);
    }
  }

  lemma CloserWoken(c: Config, s: Sys)
    requires Live(c, s) && s.consumer.Asleep? && s.producer.Outside?
    ensures Closer(c, s, StopNotify)
  {
    hide Inv, Rank, HasWork, AnyBusy, FirstBusy, KidStage, WellFormed, Ledger.Killed;
  }

  lemma CloserSleep(c: Config, s: Sys, step: Step)
    requires Live(c, s) && (s.producer.Outside? || s.consumer.Gap?)
    requires if s.consumer.Gap? then step.Block? else s.consumer.WantSleep? && step.CheckSleep?
    ensures Closer(c, s, step)
  {
    hide Inv, Rank, HasWork, AnyBusy, FirstBusy, KidStage, WellFormed, ProducerStep, ControllerStep, KidStep,
      DispatchStep, CollectStep, Readable, Fits, FirstLookStep;
  }

  lemma CloserRound(c: Config, s: Sys, step: Step)
    requires Live(c, s) && s.producer.Outside?
    requires
      if s.consumer.Away? then step.Enter?
      else if s.consumer.Top? then step.TopCheck?
      else s.consumer.WantDispatch? && step.LockDispatch?
    ensures Closer(c, s, step)
  {
    hide Inv, Rank, HasWork, AnyBusy, FirstBusy, KidStage, WellFormed, ProducerStep, ControllerStep, KidStep,
      DispatchStep, CollectStep, Readable, Fits, FirstLookStep, WakeInv;
  }

  /** Between the dispatch pass and the poll. */
  lemma CloserLate(c: Config, s: Sys) returns (step: Step)
    requires Live(c, s) && s.producer.Outside?
    requires PastDispatch(s) && !s.consumer.Rechecking? && (s.consumer.Polling? ==> !AnyBusy(s))
    ensures Closer(c, s, step)
  {
    hide Inv, WakeInv, Fits, Closer, Doomed, WellFormed, AnyBusy;
    if s.consumer.WantExpire? || s.consumer.Expiring? {
      step := if s.consumer.WantExpire? then LockExpire else NextExpire;
      CloserExpire(c, s, step);
    } else if s.consumer.WantWork? {
      step := CheckWork;
      CloserWork(c, s);
    } else {
      step := if s.consumer.WantPoll? then LockPoll else PollNothing;
      CloserIdlePoll(c, s, step);
    }
  }

  lemma CloserExpire(c: Config, s: Sys, step: Step)
    requires Live(c, s) && s.producer.Outside?
    requires if s.consumer.WantExpire? then step.LockExpire? else s.consumer.Expiring? && step.NextExpire?
    ensures Closer(c, s, step)
  {
    hide Inv, WakeInv, Rank, FirstBusy, KidStage, WellFormed, AnyBusy, HasWork, ProducerStep, ControllerStep, KidStep,
      DispatchStep, CollectStep, Woken, Readable, Fits;
    SameBusy(s, Next(c, s, step).value);
  }

  lemma CloserWork(c: Config, s: Sys)
    requires Live(c, s) && s.producer.Outside? && s.consumer.WantWork?
    ensures Closer(c, s, CheckWork)
  {
    hide Inv, WakeInv, Rank, FirstBusy, KidStage, WellFormed, AnyBusy;
    WorkIs(s);
    SameBusy(s, Next(c, s, CheckWork).value);
  }

  lemma SameBusy(s: Sys, t: Sys)
    requires t.books == s.books
    ensures AnyBusy(t) <==> AnyBusy(s)
  {}

  lemma WorkIs(s: Sys)
    ensures HasWork(s.books.pool) <==> s.books.pool.pending != [] || AnyBusy(s)
  {}

  lemma CloserIdlePoll(c: Config, s: Sys, step: Step)
    requires Live(c, s) && s.producer.Outside?
    requires if s.consumer.WantPoll? then step.LockPoll? else s.consumer.Polling? && step.PollNothing? && !AnyBusy(s)
    ensures Closer(c, s, step)
  {
    hide Inv, WakeInv, Rank, FirstBusy, KidStage, WellFormed, AnyBusy, HasWork, ProducerStep, ControllerStep, KidStep,
      DispatchStep, CollectStep, Woken, Readable, Fits;
    SameBusy(s, Next(c, s, step).value);
    KidStageSmall(c, s.(consumer := Polling));
  }

  lemma KidStageSmall(c: Config, s: Sys)
    ensures AnyBusy(s) && FirstBusy(s) < |s.kids| ==> KidStage(s.kids[FirstBusy(s)], c) <= 3
  {
    hide FirstBusy, Receive;
  }

  /** Inside the dispatch pass. */
  lemma CloserDispatch(c: Config, s: Sys) returns (step: Step)
    requires Live(c, s) && s.producer.Outside? && InDispatch(s)
    ensures Closer(c, s, step)
  {
    hide Inv, Rank, HasType, IsRequest, Attempted, SetSlot, FirstBusy, KidStage, Next, Pos, Lap, Less, Doomed;
    var i, pool := s.consumer.i, s.books.pool;
    DispatchShape(c, s);
    if s.consumer.Rejected? {
      step := Discard(true);
      CloserSettled(c, s, step);
    } else if s.consumer.Sending? {
      if s.consumer.left == [] {
        step := SendDone;
        CloserSettled(c, s, step);
      } else {
        step := SendChunk(|s.consumer.left|);
        CloserMoved(c, s, step);
      }
    } else if i >= |pool.slots| || pool.pending == [] || pool.slots[i].Busy? {
      step := NextSlot;
      CloserNext(c, s);
    } else if pool.slots[i].Stopped? {
      step := Spawn(true);
      CloserSpawn(c, s);
    } else if CanSerialize(c, Head(s)) {
      var frame :| IsRequest(c.sig, frame, Head(s).id, Head(s).args);
      FramesNonEmpty(c, frame, Head(s).id);
      step := BeginSend(frame);
      CloserMoved(c, s, step);
    } else {
      step := CannotSend;
      CloserSettled(c, s, step);
    }
  }

  lemma DispatchShape(c: Config, s: Sys)
    requires Inv(c, s) && InDispatch(s)
    ensures |s.kids| == |s.books.pool.slots|
    ensures s.consumer.Sending? || s.consumer.Rejected? ==> s.consumer.i < |s.kids| && s.books.pool.pending != []
    ensures s.consumer.Sending? ==>
      s.books.pool.slots[s.consumer.i].Idle? && (s.consumer.left != [] ==> s.kids[s.consumer.i].Kid?)
    ensures s.consumer.Dispatching? && s.consumer.i < |s.kids| ==> !s.books.pool.slots[s.consumer.i].Broken?
  {
    hide Balanced, BegunOk, Honest, Serving, HasType, IsRequest;
    if s.consumer.i < |s.kids| {
      assert KidOk(c, s, s.consumer.i);
    }
  }

  /** A delivery is settled. */
  lemma CloserSettled(c: Config, s: Sys, step: Step)
    requires Live(c, s) && s.producer.Outside? && InDispatch(s) && Smooth(c, s, step)
    requires s.consumer.i < |s.books.pool.slots| == |s.kids| && s.books.pool.pending != []
    requires match step
      case Discard(respawned) => s.consumer.Rejected?
      case SendDone => s.consumer.Sending? && s.consumer.left == []
      case CannotSend => s.consumer.Dispatching? && s.books.pool.slots[s.consumer.i].Idle?
      case _ => false
    ensures Closer(c, s, step)
  {
    hide Inv, Rank, HasType, IsRequest, Attempted, SetSlot, DispatchSlot, FirstBusy, KidStage, Pos, Lap, Smooth,
      HasWork;
    RankStep(c, s, step);
  }

  /** A frame is begun or written. */
  lemma CloserMoved(c: Config, s: Sys, step: Step)
    requires Live(c, s) && s.producer.Outside? && InDispatch(s) && Smooth(c, s, step)
    requires s.consumer.i < |s.books.pool.slots| == |s.kids| && s.books.pool.pending != []
    requires match step
      case SendChunk(n) => s.consumer.Sending? && n == |s.consumer.left| > 0 && s.kids[s.consumer.i].Kid?
      case BeginSend(frame) =>
        && s.consumer.Dispatching? && s.books.pool.slots[s.consumer.i].Idle? && frame != []
        && IsRequest(c.sig, frame, Head(s).id, Head(s).args)
      case _ => false
    ensures Closer(c, s, step)
  {
    hide Inv, Rank, HasType, IsRequest, Attempted, SetSlot, DispatchSlot, FirstBusy, KidStage, Smooth, HasWork,
      AnyBusy;
  }

  lemma CloserSpawn(c: Config, s: Sys)
    requires Live(c, s) && s.producer.Outside? && s.consumer.Dispatching?
      && s.consumer.i < |s.books.pool.slots| == |s.kids|
    requires s.books.pool.pending != [] && s.books.pool.slots[s.consumer.i].Stopped?
    ensures Closer(c, s, Spawn(true))
  {
    hide Inv, HasType, IsRequest, FirstBusy, KidStage, HasWork, AnyBusy, AttemptsLeft, CountBusy;
    RankStep(c, s, Spawn(true));
    var t := Next(c, s, Spawn(true)).value;
    assert t.books.pool.slots == s.books.pool.slots[s.consumer.i := Idle] && t.consumer == s.consumer;
    assert forall j | 0 <= j < s.consumer.i :: t.books.pool.slots[j] == s.books.pool.slots[j];
  }

  lemma CloserNext(c: Config, s: Sys)
    requires Live(c, s) && s.producer.Outside? && s.consumer.Dispatching?
    requires s.consumer.i >= |s.books.pool.slots| || s.books.pool.pending == []
      || s.books.pool.slots[s.consumer.i].Busy?
    ensures Closer(c, s, NextSlot)
  {
    hide Inv, Rank, HasType, IsRequest, FirstBusy, KidStage, HasWork;
    var i := s.consumer.i;
    assert BusyUpTo(s, i) && i < |s.books.pool.slots| && s.books.pool.slots[i].Busy? ==> BusyUpTo(s, i + 1);
    if i >= |s.books.pool.slots| && BusyUpTo(s, i) {
      assert s.books.pool.slots[0].Busy?;
    }
  }

  /** At the poll, with a task in flight: its child gets on with it, or there is something to collect. */
  lemma CloserPoll(c: Config, s: Sys) returns (step: Step)
    requires Live(c, s) && s.producer.Outside? && s.consumer.Polling? && AnyBusy(s)
    ensures Closer(c, s, step)
  {
    hide Inv, Rank, HasType, IsRequest, IsReply, FirstBusy, KidStage, Smooth, Next, Pos, Lap, Less, Doomed, Receive,
      Serving;
    var i := FirstBusy(s);
    var id, args := s.books.pool.slots[i].id, s.books.pool.slots[i].args;
    BusyServes(c, s, i);
    var k := s.kids[i];
    if k.phase.Dead? || Receive(c.sig, k.out).Got? {
      step := Collect(i, if Receive(c.sig, k.out).Got? then GotPacket else ChildExited, true);
      CloserCollect(c, s, i, step.how);
    } else {
      step := KidTurn(c, s, i);
      CloserKid(c, s, i, step);
    }
  }

  /** Between the two looks of a deadline check: the child gets on with it until the socket shows something. */
  lemma CloserRecheck(c: Config, s: Sys) returns (step: Step)
    requires Live(c, s) && s.producer.Outside? && s.consumer.Rechecking?
    ensures Closer(c, s, step)
  {
    hide Inv, Rank, HasType, IsRequest, IsReply, FirstBusy, KidStage, Smooth, Next, Pos, Lap, Less, Doomed, Receive,
      Serving, AnyBusy;
    var i := s.consumer.i;
    RecheckedBusy(c, s);
    BusyServes(c, s, i);
    if Readable(s.kids[i]) {
      step := Surface;
      CloserSurface(c, s);
    } else {
      NothingToRead(c);
      step := KidTurn(c, s, i);
      CloserKid(c, s, i, step);
    }
  }

  lemma RecheckedBusy(c: Config, s: Sys)
    requires Inv(c, s) && s.consumer.Rechecking?
    ensures s.consumer.i < |s.books.pool.slots| && s.books.pool.slots[s.consumer.i].Busy?
  {
    hide Balanced, KidOk, BegunOk, Honest, HasType;
  }

  lemma NothingToRead(c: Config)
    ensures !Receive(c.sig, []).Got?
  {}

  lemma CloserSurface(c: Config, s: Sys)
    requires Live(c, s) && s.producer.Outside? && s.consumer.Rechecking? && s.consumer.i < |s.kids|
    requires s.consumer.i < |s.books.pool.slots| && s.books.pool.slots[s.consumer.i].Busy?
    requires Readable(s.kids[s.consumer.i])
    ensures Closer(c, s, Surface)
  {
    hide Inv, Rank, HasType, HasWork, FirstBusy, KidStage, WellFormed, WakeInv;
    KidStageSmall(c, s.(consumer := Polling));
  }

  /** What the child of a busy slot can do next: take its request, return from its target, or write the rest of its
      reply. */
  lemma KidTurn(c: Config, s: Sys, i: nat) returns (step: Step)
    requires WellFormed(c.sig) && i < |s.kids| && i < |s.books.pool.slots| && s.books.pool.slots[i].Busy?
    requires s.kids[i].Kid? && !s.kids[i].phase.Dead? && s.books.pool.slots[i].id < SIZE_LIMIT
    ensures Turn(c, s, i, step)
  {
    hide IsReply;
    match s.kids[i].phase {
      case Await =>
        step := KidReceive(i);
      case Running(_, _) =>
        var frame := OkReply(c, s.books.pool.slots[i].id);
        step := KidFinish(i, Returned, frame);
      case Replying(left) =>
        step := KidWrite(i, |left|);
    }
  }

  predicate Turn(c: Config, s: Sys, i: nat, step: Step)
    requires i < |s.kids| && i < |s.books.pool.slots| && s.books.pool.slots[i].Busy?
  {
    s.kids[i].Kid? &&
    match step
    case KidReceive(j) => j == i && s.kids[i].phase.Await?
    case KidFinish(j, outcome, frame) =>
      j == i && s.kids[i].phase.Running? && IsReply(c.sig, frame, s.books.pool.slots[i].id, outcome)
    case KidWrite(j, n) => j == i && s.kids[i].phase.Replying? && n == |s.kids[i].phase.left|
    case _ => false
  }

  lemma BusyServes(c: Config, s: Sys, i: nat)
    requires Inv(c, s) && Fits(c, s) && i < |s.books.pool.slots| && s.books.pool.slots[i].Busy?
    ensures i < |s.kids| && Serving(c, s, s.kids[i], s.books.pool.slots[i].id, s.books.pool.slots[i].args)
    ensures s.kids[i].Kid? && s.books.pool.slots[i].id < SIZE_LIMIT
  {
    hide BegunOk, Honest, Serving, HasType, QueueOk, AccountsOk, CountsOk;
    assert KidOk(c, s, i);
    assert SlotOk(s.books, i);
    hide KidOk;
    ServingKid(c, s, s.kids[i], s.books.pool.slots[i].id, s.books.pool.slots[i].args);
  }

  lemma ServingKid(c: Config, s: Sys, k: Kid, id: nat, args: Val)
    requires Serving(c, s, k, id, args)
    ensures k.Kid?
  {}

  /** The target may return: then the child has a frame to answer with. */
  lemma OkReply(c: Config, id: nat) returns (frame: Octets)
    requires WellFormed(c.sig) && id < SIZE_LIMIT
    ensures IsReply(c.sig, frame, id, Returned)
  {
    hide IsReply, HeaderBytes;
    var gap: Octets := [0, 0, 0, 0];
    assert ReplyFrame(c.sig, id, Returned, gap, gap).Some?;
    ReplyFrameIsReply(c.sig, id, Returned, gap, gap);
    frame := ReplyFrame(c.sig, id, Returned, gap, gap).value;
  }

  lemma CloserCollect(c: Config, s: Sys, i: nat, how: How)
    requires Live(c, s) && s.producer.Outside? && s.consumer.Polling?
    requires i < |s.books.pool.slots| && i < |s.kids| && s.books.pool.slots[i].Busy? && s.kids[i].Kid?
    requires if how.GotPacket? then Receive(c.sig, s.kids[i].out).Got? else how.ChildExited? && s.kids[i].phase.Dead?
    ensures Closer(c, s, Collect(i, how, true))
  {
    hide Inv, Rank, HasType, Receive, FirstBusy, KidStage, Pos, Lap, HasWork, Ledger.Collected, FinishTask,
      FromWaitStatus;
    RankStep(c, s, Collect(i, how, true));
  }

  lemma CloserKid(c: Config, s: Sys, i: nat, step: Step)
    requires Live(c, s) && s.producer.Outside? && i < |s.kids| && i < |s.books.pool.slots|
    requires s.books.pool.slots[i].Busy?
    requires if s.consumer.Polling? then AnyBusy(s) && i == FirstBusy(s)
             else s.consumer.Rechecking? && s.consumer.i == i
    requires Serving(c, s, s.kids[i], s.books.pool.slots[i].id, s.books.pool.slots[i].args)
    requires !Receive(c.sig, s.kids[i].out).Got?
    requires Turn(c, s, i, step)
    ensures Closer(c, s, step)
  {
    hide Inv, Rank, HasType, FirstBusy, HasWork, Receive, AnyBusy, Lap, ProducerStep, ControllerStep, ConsumerStep,
      DispatchStep, CollectStep, Readable, Fits, KidStage, Serving, WellFormed;
    KidAdvances(c, s, i, step);
    var t := Next(c, s, step).value;
    KidFrame(c, s, i, step);
    SameLap(s, t);
  }

  lemma SameLap(s: Sys, t: Sys)
    requires t.books == s.books && t.consumer == s.consumer
    ensures Lap(t) == Lap(s) && (AnyBusy(t) <==> AnyBusy(s)) && (AnyBusy(s) ==> FirstBusy(t) == FirstBusy(s))
  {}

  lemma KidAdvances(c: Config, s: Sys, i: nat, step: Step)
    requires i < |s.kids| && i < |s.books.pool.slots| && s.books.pool.slots[i].Busy?
    requires Serving(c, s, s.kids[i], s.books.pool.slots[i].id, s.books.pool.slots[i].args)
    requires !Receive(c.sig, s.kids[i].out).Got?
    requires Turn(c, s, i, step)
    ensures KidStep(c, s, i, step).Some?
    ensures KidStage(KidStep(c, s, i, step).value.kids[i], c) < KidStage(s.kids[i], c)
  {
    hide Receive;
    if step.KidWrite? {
      var left := s.kids[i].phase.left;
      assert left[|left|..] == [] && left[..|left|] == left;
    }
  }

  // ---- The theorem -------------------------------------------------------------------------

  lemma Advance(c: Config, s: Sys) returns (step: Step)
    requires Live(c, s)
    ensures Closer(c, s, step)
  {
    hide Inv, WakeInv, Fits, Closer, Doomed, WellFormed;
    if s.consumer.Gap? {
      step := CloserWaiting(c, s);
    } else if !s.producer.Outside? {
      step := CloserProducer(c, s);
    } else if InDispatch(s) {
      step := CloserDispatch(c, s);
    } else if s.consumer.Polling? && AnyBusy(s) {
      step := CloserPoll(c, s);
    } else if s.consumer.Rechecking? {
      step := CloserRecheck(c, s);
    } else if PastDispatch(s) {
      step := CloserLate(c, s);
    } else {
      step := CloserWaiting(c, s);
    }
  }

  lemma {:induction false} LiveFinishes(c: Config, s: Sys)
    requires Live(c, s)
    ensures CanFinish(c, s)
    decreases Stage(s), Rank(s.books.pool, c.budget), Lap(s), Pos(c, s)
  {
    hide Inv, WakeInv, Fits, Next, Smooth, CanFinish, Doomed, WellFormed, Finished, Stage, Rank, Lap, Pos;
    var step := Advance(c, s);
    var t := Next(c, s, step).value;
    if Finished(t) {
      FinishedNow(c, t);
    } else {
      StepKeeps(c, s, step);
      WakeStep(c, s, step);
      FitsStep(c, s, step);
      LiveFinishes(c, t);
    }
    StepThen(c, s, step);
  }

  /** A doomed consumer stays where it is. */
  lemma {:induction false} DoomedForever(c: Config, s: Sys, steps: seq<Step>)
    requires Doomed(s) && SmoothRun(c, s, steps) && Run(c, s, steps).Some?
    ensures Doomed(Run(c, s, steps).value)
    decreases |steps|
  {
    hide Next, Smooth, Doomed;
    if steps == [] {
    } else {
      DoomedStep(c, s, steps[0]);
      DoomedForever(c, Next(c, s, steps[0]).value, steps[1..]);
    }
  }

  lemma DoomedStep(c: Config, s: Sys, step: Step)
    requires Doomed(s) && Smooth(c, s, step) && Next(c, s, step).Some?
    ensures Doomed(Next(c, s, step).value)
  {
    hide ProducerStep, ControllerStep, KidStep, DispatchStep, ConsumerStep, CollectStep, Doomed, Smooth;
    if OfKid(step) {
      KidFrame(c, s, step.i, step);
      DoomedKid(s, Next(c, s, step).value);
    } else if OfProducer(step) || OfController(step) || step.Collect? {
      DoomedAlone(c, s, step);
    } else {
      DoomedConsumer(c, s, step);
    }
  }

  lemma DoomedKid(s: Sys, t: Sys)
    requires Doomed(s) && t.consumer == s.consumer && t.state == s.state && t.producer == s.producer
      && t.controller == s.controller
    ensures Doomed(t)
  {}

  /** No other thread has a step left that is not ruled out, and a consumer that waits collects nothing. */
  lemma DoomedAlone(c: Config, s: Sys, step: Step)
    requires Doomed(s) && Smooth(c, s, step) && (OfProducer(step) || OfController(step) || step.Collect?)
    ensures Next(c, s, step) == None
  {
    hide HasType, Classify, Ledger.Push, Ledger.Killed, Ledger.Collected, Receive;
  }

  lemma DoomedConsumer(c: Config, s: Sys, step: Step)
    requires Doomed(s) && Smooth(c, s, step) && !step.Collect? && Next(c, s, step).Some?
    requires !OfProducer(step) && !OfController(step) && !OfKid(step)
    ensures !InDispatch(s) && Doomed(Next(c, s, step).value)
  {
    hide HasWork, ProducerStep, ControllerStep, KidStep, DispatchStep, CollectStep, Readable;
  }

  /** From every reachable state of a stopping pool, wherever its threads and children stand, some continuation without
      failures drains the pool and lets wait_one() end: unless the consumer sleeps, or is about to, and nobody is left
      to wake it. */
  lemma FinishesIff(c: Config, s: Sys)
    requires c.budget >= 1 && c.workers >= 1 && WellFormed(c.sig) && Reachable(c, s) && s.state.Finishing?
    ensures CanFinish(c, s) <==> !Doomed(s)
  {
    hide Inv, WakeInv, Next, Run, SmoothRun, WellFormed, Fits, Init;
    if Doomed(s) {
      forall steps | SmoothRun(c, s, steps) && Run(c, s, steps).Some?
        ensures !Finished(Run(c, s, steps).value)
      {
        DoomedForever(c, s, steps);
      }
    } else {
      ReachableInv(c, s);
      ReachableWakes(c, s);
      var steps :| Run(c, Init(c), steps) == Some(s);
      FitsInit(c);
      FitsRun(c, Init(c), steps);
      LiveFinishes(c, s);
    }
  }

  lemma FitsInit(c: Config)
    ensures Fits(c, Init(c))
  {}
}
