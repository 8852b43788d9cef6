/** Timeouts: a task whose answer, or whose child's end, was there when the check of its deadline began is never
    reported as timed out, unless both polls of that check fail. */
module Timeouts {
  import opened Bytes
  import opened Codec
  import opened Frame
  import opened WorkerSpec
  import opened PoolSpec
  import opened Ledger
  import opened System
  import opened Safety

  /** The task has left its slot without a timeout result. */
  predicate Settled(b: Books, id: nat) {
    id in b.loc &&
    match b.loc[id]
    case Delivered(k) => k < |b.delivered| && !b.delivered[k].status.Timeout?
    case Unreported(_) => true
    case Dropped => true
    case _ => false
  }

  predicate Owns(s: Sys, i: nat, id: nat) {
    && i < |s.books.pool.slots| == |s.kids| && s.books.pool.slots[i].Busy? && s.books.pool.slots[i].id == id
    && id in s.books.loc && s.books.loc[id] == InFlight(i)
  }

  predicate Surfaced(s: Sys, i: nat, id: nat) {
    (Owns(s, i, id) && Readable(s.kids[i]) && !Overtaken(s, i)) || Settled(s.books, id)
  }

  /** A deadline check of slot `i` is between its two looks, and its first poll worked: it saw nothing. */
  predicate Overtaken(s: Sys, i: nat) {
    s.consumer.Rechecking? && s.consumer.i == i && !s.consumer.failed
  }

  /** At least one poll of a deadline check works. */
  predicate Sighted(step: Step) {
    step.Collect? && step.how.TimedOut? ==> !(step.how.first && step.how.second)
  }

  lemma AnsweredStep(c: Config, s: Sys, step: Step, i: nat, id: nat)
    requires Inv(c, s) && Surfaced(s, i, id) && Sighted(step) && Next(c, s, step).Some?
    ensures Surfaced(Next(c, s, step).value, i, id)
  {
    hide ProducerStep, ControllerStep, KidStep, DispatchStep, ConsumerStep, CollectStep, Inv, Surfaced;
    if OfProducer(step) {
      AnsweredProducer(c, s, step, i, id);
    } else if OfController(step) {
      AnsweredController(c, s, step, i, id);
    } else if OfKid(step) {
      AnsweredKid(c, s, step.i, step, i, id);
    } else if step.Collect? {
      AnsweredCollect(c, s, step.i, step.how, step.respawned, i, id);
    } else if InDispatch(s) {
      AnsweredDispatch(c, s, step, i, id);
    } else {
      AnsweredConsumer(s, step, i, id);
    }
  }

  lemma AnsweredProducer(c: Config, s: Sys, step: Step, i: nat, id: nat)
    requires Inv(c, s) && Surfaced(s, i, id) && ProducerStep(c, s, step).Some?
    ensures Surfaced(ProducerStep(c, s, step).value, i, id)
  {
    hide HasType, KidOk, BegunOk, Honest, QueueOk, SlotsOk, AccountsOk, CountsOk, Shape;
    assert s.books.pool.nextId !in s.books.loc;
  }

  lemma AnsweredController(c: Config, s: Sys, step: Step, i: nat, id: nat)
    requires Inv(c, s) && Surfaced(s, i, id) && ControllerStep(s, step).Some?
    ensures Surfaced(ControllerStep(s, step).value, i, id)
  {
    hide Inv;
  }

  lemma AnsweredConsumer(s: Sys, step: Step, i: nat, id: nat)
    requires Surfaced(s, i, id) && ConsumerStep(s, step).Some?
    ensures Surfaced(ConsumerStep(s, step).value, i, id)
  {
    hide HasWork;
  }

  lemma AnsweredKid(c: Config, s: Sys, w: nat, step: Step, i: nat, id: nat)
    requires Surfaced(s, i, id) && w < |s.kids| && KidStep(c, s, w, step).Some?
    ensures Surfaced(KidStep(c, s, w, step).value, i, id)
  {
    hide Receive, IsReply, HasType;
  }

  lemma AnsweredDispatch(c: Config, s: Sys, step: Step, i: nat, id: nat)
    requires Inv(c, s) && Surfaced(s, i, id) && InDispatch(s) && DispatchStep(c, s, step).Some?
    ensures Surfaced(DispatchStep(c, s, step).value, i, id)
  {
    hide DispatchStep, Inv;
    if Settled(s.books, id) {
      SettledDispatch(c, s, step, id);
    } else {
      OwnedDispatch(c, s, step, i, id);
    }
  }

  lemma SettledDispatch(c: Config, s: Sys, step: Step, id: nat)
    requires Inv(c, s) && Settled(s.books, id) && InDispatch(s) && DispatchStep(c, s, step).Some?
    ensures Settled(DispatchStep(c, s, step).value.books, id)
  {
    hide Inv, DispatchStep;
    DispatchLeaves(c, s, step, id);
  }

  /** The dispatch loop adds no result and changes the location of the head of the queue only. */
  lemma DispatchLeaves(c: Config, s: Sys, step: Step, id: nat)
    requires Inv(c, s) && id in s.books.loc && !s.books.loc[id].Pending? && InDispatch(s)
      && DispatchStep(c, s, step).Some?
    ensures var b := DispatchStep(c, s, step).value.books;
      id in b.loc && b.loc[id] == s.books.loc[id] && b.delivered == s.books.delivered
  {
    hide IsRequest, HasType, Inv, Attempted, Readable;
    if s.books.pool.pending != [] {
      HeadPending(c, s);
      if s.consumer.i < |s.books.pool.slots| {
        forall a
          ensures var b := Attempted(s.books, s.consumer.i, a, c.budget);
            id in b.loc && b.loc[id] == s.books.loc[id] && b.delivered == s.books.delivered
        {
          AttemptLeaves(s.books, s.consumer.i, a, c.budget, id);
        }
      }
    }
  }

  lemma AttemptLeaves(b: Books, i: nat, a: Attempt, budget: nat, id: nat)
    requires i < |b.pool.slots| && b.pool.pending != [] && id in b.loc && b.pool.pending[0].id != id
    ensures var b' := Attempted(b, i, a, budget);
      id in b'.loc && b'.loc[id] == b.loc[id] && b'.delivered == b.delivered
  {}

  lemma OwnedDispatch(c: Config, s: Sys, step: Step, i: nat, id: nat)
    requires Inv(c, s) && Owns(s, i, id) && Readable(s.kids[i]) && InDispatch(s) && DispatchStep(c, s, step).Some?
    ensures Owns(DispatchStep(c, s, step).value, i, id) && Readable(DispatchStep(c, s, step).value.kids[i])
    ensures !Overtaken(DispatchStep(c, s, step).value, i)
  {
    hide Inv, DispatchStep;
    OwnedKid(c, s, step, i, id);
    OwnedSlot(c, s, step, i);
    DispatchLeaves(c, s, step, id);
  }

  lemma OwnedKid(c: Config, s: Sys, step: Step, i: nat, id: nat)
    requires Inv(c, s) && Owns(s, i, id) && InDispatch(s) && DispatchStep(c, s, step).Some?
    ensures var s' := DispatchStep(c, s, step).value;
      |s'.kids| == |s.kids| && s'.kids[i] == s.kids[i] && !s'.consumer.Rechecking?
  {
    hide IsRequest, HasType, KidOk, BegunOk, Honest, Balanced, Attempted, SetSlot, DispatchSlot;
  }

  lemma OwnedSlot(c: Config, s: Sys, step: Step, i: nat)
    requires Inv(c, s) && i < |s.kids| == |s.books.pool.slots| && s.books.pool.slots[i].Busy? && InDispatch(s)
      && DispatchStep(c, s, step).Some?
    ensures var pool := DispatchStep(c, s, step).value.books.pool;
      |pool.slots| == |s.books.pool.slots| && pool.slots[i] == s.books.pool.slots[i]
  {
    hide IsRequest, HasType, Readable, KidOk, Balanced, BegunOk, Honest;
  }

  lemma AnsweredCollect(c: Config, s: Sys, w: nat, how: How, respawned: bool, i: nat, id: nat)
    requires Inv(c, s) && Surfaced(s, i, id) && w < |s.kids| && w < |s.books.pool.slots|
      && (how.TimedOut? ==> !(how.first && how.second))
    requires CollectStep(c, s, w, how, respawned).Some?
    ensures Surfaced(CollectStep(c, s, w, how, respawned).value, i, id)
  {
    hide Receive, HasType, KidOk, BegunOk, Honest, QueueOk, AccountsOk, CountsOk, IdsOk, Classify;
    assert SlotOk(s.books, w);
    var slot := s.books.pool.slots[w];
    if Readable(s.kids[w]) && !Overtaken(s, w) {
      NoTimeout(c, s.kids[w], slot.id, slot.args, how);
    }
  }

  lemma NoTimeout(c: Config, k: Kid, id: nat, args: Val, how: How)
    requires Readable(k) && (how.TimedOut? ==> !how.second) && Classify(c, k, id, args, how).Some?
    ensures !Classify(c, k, id, args, how).value.0.status.Timeout?
  {
    hide Receive;
  }

  lemma {:induction false} AnsweredRun(c: Config, s: Sys, steps: seq<Step>, i: nat, id: nat)
    requires Inv(c, s) && Surfaced(s, i, id) && Run(c, s, steps).Some? && forall k | 0 <= k < |steps| ::
      Sighted(steps[k])
    ensures Surfaced(Run(c, s, steps).value, i, id)
    decreases |steps|
  {
    if steps == [] {
    } else {
      AnsweredStep(c, s, steps[0], i, id);
      StepKeeps(c, s, steps[0]);
      assert forall k | 0 <= k < |steps[1..]| :: steps[1..][k] == steps[k + 1];
      AnsweredRun(c, Next(c, s, steps[0]).value, steps[1..], i, id);
    }
  }

  /** Once a busy worker has something to read, or its child has ended, before a deadline check begins, no continuation
      returns a timeout for its task unless both polls of one check fail. */
  lemma NeverReportedAsTimeout(c: Config, s: Sys, steps: seq<Step>, i: nat, k: nat)
    requires c.budget >= 1 && Reachable(c, s) && i < |s.kids| && i < |s.books.pool.slots|
    requires s.books.pool.slots[i].Busy? && Readable(s.kids[i]) && !Overtaken(s, i)
    requires Run(c, s, steps).Some? && forall j | 0 <= j < |steps| :: Sighted(steps[j])
    requires k < |Run(c, s, steps).value.books.delivered|
    requires Run(c, s, steps).value.books.delivered[k].taskId == s.books.pool.slots[i].id
    ensures !Run(c, s, steps).value.books.delivered[k].status.Timeout?
  {
    hide Receive, HasType, KidOk, BegunOk, Honest, QueueOk, CountsOk, IdsOk, Run;
    ReachableInv(c, s);
    assert SlotOk(s.books, i);
    AnsweredRun(c, s, steps, i, s.books.pool.slots[i].id);
    RunKeeps(c, s, steps);
  }

  /** The exception is real: a deadline check whose polls both fail discards an answer that is there, and one whose
      polls do not both fail cannot. */
  lemma BlindCheckDiscardsAnswer(c: Config, s: Sys, i: nat)
    requires i < |s.kids| && i < |s.books.pool.slots| && s.books.pool.slots[i].Busy?
    requires s.consumer == Expiring(i) || s.consumer.Polling?
    requires s.kids[i].Kid? && s.kids[i].out != [] && !s.kids[i].phase.Dead?
    ensures Next(c, s, FirstLook(i, false)) == None
    ensures Next(c, s, FirstLook(i, true)) == Some(s.(consumer := Rechecking(i, s.consumer.Polling?, true)))
    ensures Next(c, s.(consumer := Rechecking(i, s.consumer.Polling?, true)), Collect(i, TimedOut(true, false), true))
      == None
    ensures SecondLook(c, s.(consumer := Rechecking(i, s.consumer.Polling?, true)), i, true)
  {
    hide Next, SecondLook;
    FirstPoll(c, s, i);
    var s' := s.(consumer := Rechecking(i, s.consumer.Polling?, true));
    SecondPollWorks(c, s', i);
    SecondPollFails(c, s', i);
  }

  lemma FirstPoll(c: Config, s: Sys, i: nat)
    requires i < |s.kids| && i < |s.books.pool.slots| && s.books.pool.slots[i].Busy?
    requires s.consumer == Expiring(i) || s.consumer.Polling?
    requires s.kids[i].Kid? && s.kids[i].out != [] && !s.kids[i].phase.Dead?
    ensures Next(c, s, FirstLook(i, false)) == None
    ensures Next(c, s, FirstLook(i, true)) == Some(s.(consumer := Rechecking(i, s.consumer.Polling?, true)))
  {
    hide ProducerStep, ControllerStep, KidStep, CollectStep, DispatchStep;
  }

  lemma SecondPollWorks(c: Config, s: Sys, i: nat)
    requires i < |s.kids| && i < |s.books.pool.slots| && s.kids[i].Kid? && s.kids[i].out != []
    ensures Next(c, s, Collect(i, TimedOut(true, false), true)) == None
  {
    hide Receive, ProducerStep, ControllerStep, KidStep, DispatchStep, ConsumerStep;
  }

  /** From here a failing second poll makes a timeout of the task at slot `i`. */
  predicate SecondLook(c: Config, s: Sys, i: nat, first: bool)
    requires i < |s.books.pool.slots| && s.books.pool.slots[i].Busy?
  {
    var after := Next(c, s, Collect(i, TimedOut(first, true), true));
    && after.Some? && after.value.verdict == s.verdict
    && after.value.books.delivered == s.books.delivered +
         [MakeResult(s.books.pool.slots[i].id, s.books.pool.slots[i].args, Timeout, Fixed("worker task timed out"))]
  }

  lemma SecondPollFails(c: Config, s: Sys, i: nat)
    requires i < |s.kids| && i < |s.books.pool.slots| && s.books.pool.slots[i].Busy?
    requires s.consumer.Rechecking? && s.consumer.i == i && s.kids[i].Kid? && !s.kids[i].phase.Dead?
    ensures SecondLook(c, s, i, s.consumer.failed)
  {
    hide Receive;
  }

  // ---- A run in which it happens -----------------------------------------------------------

  /** Submits one task and sends its request. */
  function Delivering(args: Val, frame: Octets): seq<Step> {
    [BeginSubmit(args)] + ([Push] + ([NotifyOne] + ([Enter] + ([TopCheck] + ([LockDispatch] + ([BeginSend(frame)]
    + ([SendChunk(|frame|)] + ([SendDone] + ([NextSlot] + [])))))))))
  }

  /** The child runs it and writes the whole reply; then the parent checks the deadline with failing polls. */
  function Discarding(outcome: Outcome, reply: Octets): seq<Step> {
    Answering(outcome, reply, [LockExpire] + ([FirstLook(0, true)] + ([Collect(0, TimedOut(true, true), true)] + [])))
  }

  /** One worker, one task in flight whose request the child has not looked at, and the consumer before its check. */
  function Delivered(c: Config, args: Val, frame: Octets): Sys
    requires c.workers == 1
  {
    Init(c).(consumer := WantExpire, kids := [Kid(frame, Await, [])],
             books := Attempted(Ledger.Push(Opened(1), args), 0, Took, c.budget))
  }

  lemma Delivers(c: Config, args: Val, frame: Octets)
    requires c.workers == 1 && c.budget >= 1 && HasType(c.sig, args) && IsRequest(c.sig, frame, 1, args)
    ensures Run(c, Init(c), Delivering(args, frame)) == Some(Delivered(c, args, frame))
  {
    hide Receive, HasType, IsRequest, KidStep, CollectStep, Run;
    FramesNonEmpty(c, frame, 1);
    var s := Init(c);
    assert s.kids == [FRESH];
    assert frame[|frame|..] == [] && frame[..|frame|] == frame && [] + frame == frame;
    var b := Ledger.Push(Opened(1), args);
    var rest := [NextSlot] + [];
    One(c, s, BeginSubmit(args), [Push] + ([NotifyOne] + ([Enter] + ([TopCheck] + ([LockDispatch] + ([BeginSend(frame)]
      + ([SendChunk(|frame|)] + ([SendDone] + rest))))))));
    One(c, s.(producer := Checked(args)), Push,
      [NotifyOne] + ([Enter] + ([TopCheck] + ([LockDispatch] + ([BeginSend(frame)]
      + ([SendChunk(|frame|)] + ([SendDone] + rest)))))));
    One(c, s.(producer := OwesOne, books := b), NotifyOne, [Enter] + ([TopCheck] + ([LockDispatch] + ([BeginSend(frame)]
      + ([SendChunk(|frame|)] + ([SendDone] + rest))))));
    var q := s.(books := b);
    One(c, q, Enter, [TopCheck] + ([LockDispatch]
      + ([BeginSend(frame)] + ([SendChunk(|frame|)] + ([SendDone] + rest)))));
    Sends(c, q, args, frame);
  }

  lemma SendSteps(c: Config, q: Sys, args: Val, frame: Octets)
    requires c.workers == 1 && IsRequest(c.sig, frame, 1, args) && frame != []
      && q == Init(c).(books := Ledger.Push(Opened(1), args))
    requires frame[|frame|..] == [] && frame[..|frame|] == frame && [] + frame == frame && Init(c).kids == [FRESH]
    ensures DispatchStep(c, q.(consumer := Dispatching(0)), BeginSend(frame))
      == Some(q.(consumer := Sending(0, frame, frame)))
    ensures DispatchStep(c, q.(consumer := Sending(0, frame, frame)), SendChunk(|frame|))
      == Some(q.(consumer := Sending(0, frame, []), kids := [Kid(frame, Await, [])]))
    ensures var s := q.(consumer := Sending(0, frame, []), kids := [Kid(frame, Await, [])]);
      DispatchStep(c, s, SendDone) == Some(s.(consumer := Dispatching(1),
        books := Attempted(q.books, 0, Took, c.budget)))
    ensures DispatchStep(c, Delivered(c, args, frame).(consumer := Dispatching(1)), NextSlot)
      == Some(Delivered(c, args, frame))
  {
    hide Receive, HasType, IsRequest;
    assert [FRESH][0 := Kid(frame, Await, [])] == [Kid(frame, Await, [])];
  }

  /** The child takes the request, runs it and writes the whole reply. */
  function Answering(outcome: Outcome, reply: Octets, rest: seq<Step>): seq<Step> {
    [KidReceive(0)] + ([KidFinish(0, outcome, reply)] + ([KidWrite(0, |reply|)] + rest))
  }

  function Began(s: Sys, args: Val): Sys {
    s.(kids := [Kid([], Running(1, args), [])], begun := s.begun + [1])
  }

  function Judging(s: Sys, args: Val, outcome: Outcome, reply: Octets): Sys {
    s.(kids := [Kid([], Replying(reply), [])], verdict := s.verdict[1 := Verdict(args, outcome)])
  }

  function Answered(s: Sys, args: Val, outcome: Outcome, reply: Octets): Sys {
    Judging(Began(s, args), args, outcome, reply).(kids := [Kid([], Await, reply)])
  }

  lemma Answers(c: Config, s: Sys, args: Val, frame: Octets, outcome: Outcome, reply: Octets, rest: seq<Step>)
    requires s.kids == [Kid(frame, Await, [])] && IsRequest(c.sig, frame, 1, args) && IsReply(c.sig, reply, 1, outcome)
    ensures Run(c, s, Answering(outcome, reply, rest)) == Run(c, Answered(s, args, outcome, reply), rest)
  {
    hide Next, Run, IsRequest, Began, Judging, Answered;
    var s1 := Began(s, args);
    var s2 := Judging(s1, args, outcome, reply);
    FramesNonEmpty(c, reply, 1);
    KidTakes(c, s, args, frame);
    KidJudges(c, s, args, outcome, reply);
    KidWrites(c, s, args, outcome, reply);
    One(c, s, KidReceive(0), [KidFinish(0, outcome, reply)] + ([KidWrite(0, |reply|)] + rest));
    One(c, s1, KidFinish(0, outcome, reply), [KidWrite(0, |reply|)] + rest);
    One(c, s2, KidWrite(0, |reply|), rest);
  }

  lemma KidTakes(c: Config, s: Sys, args: Val, frame: Octets)
    requires s.kids == [Kid(frame, Await, [])] && IsRequest(c.sig, frame, 1, args)
    ensures Next(c, s, KidReceive(0)) == Some(Began(s, args))
  {
    hide Receive;
    assert [Kid(frame, Await, [])][0 := Kid([], Running(1, args), [])] == [Kid([], Running(1, args), [])];
  }

  lemma KidJudges(c: Config, s: Sys, args: Val, outcome: Outcome, reply: Octets)
    requires IsReply(c.sig, reply, 1, outcome)
    ensures Next(c, Began(s, args), KidFinish(0, outcome, reply)) ==
      Some(Judging(Began(s, args), args, outcome, reply))
  {
    hide IsReply;
    assert [Kid([], Running(1, args), [])][0 := Kid([], Replying(reply), [])] == [Kid([], Replying(reply), [])];
  }

  lemma KidWrites(c: Config, s: Sys, args: Val, outcome: Outcome, reply: Octets)
    requires reply != []
    ensures Next(c, Judging(Began(s, args), args, outcome, reply), KidWrite(0, |reply|)) ==
      Some(Answered(s, args, outcome, reply))
  {
    hide Receive, IsReply, Ledger.Push, Ledger.Killed, CollectStep, DispatchStep, ConsumerStep;
    assert reply[|reply|..] == [] && reply[..|reply|] == reply && [] + reply == reply;
    assert [Kid([], Replying(reply), [])][0 := Kid([], Await, reply)] == [Kid([], Await, reply)];
  }

  lemma Sends(c: Config, q: Sys, args: Val, frame: Octets)
    requires c.workers == 1 && IsRequest(c.sig, frame, 1, args) && frame != []
      && q == Init(c).(books := Ledger.Push(Opened(1), args))
    requires frame[|frame|..] == [] && frame[..|frame|] == frame && [] + frame == frame && Init(c).kids == [FRESH]
    ensures Run(c, q.(consumer := Top),
      [TopCheck] + ([LockDispatch] + ([BeginSend(frame)] + ([SendChunk(|frame|)] + ([SendDone] + ([NextSlot] + []))))))
      == Some(Delivered(c, args, frame))
  {
    hide Receive, HasType, IsRequest, KidStep, CollectStep, ProducerStep, ControllerStep, DispatchStep, Run;
    var rest := [NextSlot] + [];
    SendSteps(c, q, args, frame);
    One(c, q.(consumer := Top), TopCheck,
      [LockDispatch] + ([BeginSend(frame)] + ([SendChunk(|frame|)] + ([SendDone] + rest))));
    One(c, q.(consumer := WantDispatch), LockDispatch,
      [BeginSend(frame)] + ([SendChunk(|frame|)] + ([SendDone] + rest)));
    One(c, q.(consumer := Dispatching(0)), BeginSend(frame), [SendChunk(|frame|)] + ([SendDone] + rest));
    One(c, q.(consumer := Sending(0, frame, frame)), SendChunk(|frame|), [SendDone] + rest);
    var k := [Kid(frame, Await, [])];
    One(c, q.(consumer := Sending(0, frame, []), kids := k), SendDone, rest);
    var s := q.(consumer := Dispatching(1), kids := k, books := Attempted(q.books, 0, Took, c.budget));
    One(c, s, NextSlot, []);
    Done(c, Delivered(c, args, frame));
  }

  lemma Discards(c: Config, args: Val, frame: Octets, outcome: Outcome, reply: Octets)
    requires c.workers == 1 && IsRequest(c.sig, frame, 1, args) && IsReply(c.sig, reply, 1, outcome)
    ensures Run(c, Delivered(c, args, frame), Discarding(outcome, reply)).Some?
    ensures var s := Run(c, Delivered(c, args, frame), Discarding(outcome, reply)).value;
      s.verdict == map[1 := Verdict(args, outcome)]
        && s.books.delivered == [MakeResult(1, args, Timeout, Fixed("worker task timed out"))]
  {
    FramesNonEmpty(c, reply, 1);
    hide Receive, HasType, IsRequest, IsReply, Next, Run, Answering, SecondLook;
    var s := Delivered(c, args, frame);
    var s1 := Answered(s, args, outcome, reply);
    var last := Collect(0, TimedOut(true, true), true);
    Answers(c, s, args, frame, outcome, reply, [LockExpire] + ([FirstLook(0, true)] + ([last] + [])));
    Expires(c, s1);
    One(c, s1, LockExpire, [FirstLook(0, true)] + ([last] + []));
    var s2 := s1.(consumer := Expiring(0));
    BlindCheckDiscardsAnswer(c, s2, 0);
    One(c, s2, FirstLook(0, true), [last] + []);
    Ends(c, s1.(consumer := Rechecking(0, false, true)));
  }

  lemma Expires(c: Config, s: Sys)
    requires s.consumer.WantExpire? && !s.state.Halted?
    ensures Next(c, s, LockExpire) == Some(s.(consumer := Expiring(0)))
  {}

  /** The second poll fails. */
  lemma Ends(c: Config, s: Sys)
    requires |s.kids| == 1 && |s.books.pool.slots| == 1 && s.books.pool.slots[0].Busy?
    requires s.consumer.Rechecking? && s.consumer.i == 0 && s.kids[0].Kid? && !s.kids[0].phase.Dead?
    ensures var end := Run(c, s, [Collect(0, TimedOut(s.consumer.failed, true), true)] + []);
      && end.Some? && end.value.verdict == s.verdict
      && end.value.books.delivered == s.books.delivered +
           [MakeResult(s.books.pool.slots[0].id, s.books.pool.slots[0].args, Timeout, Fixed("worker task timed out"))]
  {
    hide Next, Run;
    var last := Collect(0, TimedOut(s.consumer.failed, true), true);
    SecondPollFails(c, s, 0);
    One(c, s, last, []);
    Done(c, Next(c, s, last).value);
  }

  /** The parent takes its first look, which shows nothing; the child runs the task and writes the whole reply; the
      second poll fails. */
  function Overtaking(outcome: Outcome, reply: Octets): seq<Step> {
    [LockExpire] + ([FirstLook(0, false)]
      + Answering(outcome, reply, [Collect(0, TimedOut(false, true), true)] + []))
  }

  lemma Overtakes(c: Config, args: Val, frame: Octets, outcome: Outcome, reply: Octets)
    requires c.workers == 1 && IsRequest(c.sig, frame, 1, args) && IsReply(c.sig, reply, 1, outcome)
    ensures Run(c, Delivered(c, args, frame), Overtaking(outcome, reply)).Some?
    ensures var s := Run(c, Delivered(c, args, frame), Overtaking(outcome, reply)).value;
      s.verdict == map[1 := Verdict(args, outcome)]
      && s.books.delivered == [MakeResult(1, args, Timeout, Fixed("worker task timed out"))]
  {
    hide Receive, HasType, IsRequest, IsReply, Next, Run, Answering;
    var tail := [Collect(0, TimedOut(false, true), true)] + [];
    var s := Delivered(c, args, frame);
    Expires(c, s);
    One(c, s, LockExpire, [FirstLook(0, false)] + Answering(outcome, reply, tail));
    LooksFirst(c, s.(consumer := Expiring(0)), frame);
    One(c, s.(consumer := Expiring(0)), FirstLook(0, false), Answering(outcome, reply, tail));
    var s1 := s.(consumer := Rechecking(0, false, false));
    Answers(c, s1, args, frame, outcome, reply, tail);
    Ends(c, Answered(s1, args, outcome, reply));
  }

  lemma LooksFirst(c: Config, s: Sys, frame: Octets)
    requires s.consumer == Expiring(0) && s.kids == [Kid(frame, Await, [])]
    requires |s.books.pool.slots| == 1 && s.books.pool.slots[0].Busy?
    ensures Next(c, s, FirstLook(0, false)) == Some(s.(consumer := Rechecking(0, false, false)))
  {}

  /** An answer that comes between the two looks can be lost to the second poll alone. */
  lemma LateAnswerReportedAsTimeout(c: Config, args: Val, frame: Octets, outcome: Outcome, reply: Octets)
    requires c.workers == 1 && c.budget >= 1 && HasType(c.sig, args)
    requires IsRequest(c.sig, frame, 1, args) && IsReply(c.sig, reply, 1, outcome)
    ensures var steps := Delivering(args, frame) + Overtaking(outcome, reply);
      && Run(c, Init(c), steps).Some?
        && (forall k | 0 <= k < |Overtaking(outcome, reply)| :: Sighted(Overtaking(outcome, reply)[k]))
      && Run(c, Init(c), steps).value.verdict == map[1 := Verdict(args, outcome)]
      && Run(c, Init(c), steps).value.books.delivered == [MakeResult(1, args, Timeout, Fixed("worker task timed out"))]
  {
    hide Receive, HasType, IsRequest, IsReply, Run, Next, Delivered, Delivering;
    Delivers(c, args, frame);
    Overtakes(c, args, frame, outcome, reply);
    hide Overtaking;
    RunAppend(c, Init(c), Delivering(args, frame), Overtaking(outcome, reply));
  }

  /** For every task there is a run in which its target call ends, its reply is written in full, and a deadline check
      that begins afterwards and whose polls both fail still returns a timeout. */
  lemma AnswerReportedAsTimeout(c: Config, args: Val, frame: Octets, outcome: Outcome, reply: Octets)
    requires c.workers == 1 && c.budget >= 1 && HasType(c.sig, args)
    requires IsRequest(c.sig, frame, 1, args) && IsReply(c.sig, reply, 1, outcome)
    ensures var steps := Delivering(args, frame) + Discarding(outcome, reply);
      && Run(c, Init(c), steps).Some?
      && Run(c, Init(c), steps).value.verdict == map[1 := Verdict(args, outcome)]
      && Run(c, Init(c), steps).value.books.delivered == [MakeResult(1, args, Timeout, Fixed("worker task timed out"))]
  {
    hide Receive, HasType, IsRequest, IsReply, Run, Next, Delivered, Delivering, Discarding;
    Delivers(c, args, frame);
    Discards(c, args, frame, outcome, reply);
    RunAppend(c, Init(c), Delivering(args, frame), Discarding(outcome, reply));
  }
}
