/** What holds in every reachable state: balanced books, at most one execution per task, honest results. */
module Safety {
  import opened Bytes
  import opened Codec
  import opened Frame
  import opened WorkerSpec
  import opened PoolSpec
  import opened Ledger
  import opened System

  // ---- The invariant ----------------------------------------------------------------------

  /** Thread positions agree with the slots. */
  ghost predicate Shape(c: Config, s: Sys) {
    && c.budget >= 1
    && |s.books.pool.slots| == |s.kids|
    && (s.producer.Checked? ==> HasType(c.sig, s.producer.args) && !ConsumerHoldsPending(s.consumer))
    && (s.consumer.Rechecking? ==> s.consumer.i < |s.kids| && s.books.pool.slots[s.consumer.i].Busy?)
    && (s.consumer.Sending? ==>
          s.consumer.i < |s.kids| && s.books.pool.pending != [] && s.books.pool.slots[s.consumer.i].Idle?
          && IsRequest(c.sig, s.consumer.frame, Head(s).id, Head(s).args) && |s.consumer.left| <= |s.consumer.frame|)
    && (s.consumer.Rejected? ==>
          s.consumer.i < |s.kids| && s.books.pool.pending != [] && s.books.pool.slots[s.consumer.i].Broken?
          && IsRequest(c.sig, s.consumer.frame, Head(s).id, Head(s).args)
            && 0 < |s.consumer.left| <= |s.consumer.frame|)
  }

  function Head(s: Sys): Task
    requires s.books.pool.pending != []
  {
    s.books.pool.pending[0]
  }

  /** An idle child: both directions of its socket are empty, and it waits for a request or has died. */
  predicate Quiet(k: Kid) {
    k.Kid? && k.out == [] && k.inp == [] && (k.phase.Await? || k.phase.Dead?)
  }

  /** A child to which a request is being written: it has received the frame up to `left` and done nothing. */
  predicate Receiving(k: Kid, frame: Octets, left: Octets) {
    k.Kid? && k.out == [] && ((k.phase.Await? && k.inp + left == frame) || k.phase.Dead?)
  }

  predicate Judged(s: Sys, id: nat, args: Val) {
    id in s.begun && id in s.verdict && s.verdict[id].args == args
  }

  /** A child that owns the task (id, args): it has not looked at the request yet, or runs the target on exactly
      these arguments, or is writing the reply, or has written it, or has died on the way. */
  predicate Serving(c: Config, s: Sys, k: Kid, id: nat, args: Val) {
    && k.Kid?
    && match k.phase
       case Await =>
         || (k.out == [] && IsRequest(c.sig, k.inp, id, args) && id !in s.begun)
         || (k.inp == [] && Judged(s, id, args) && IsReply(c.sig, k.out, id, s.verdict[id].outcome))
       case Running(id', args') =>
         k.inp == [] && k.out == [] && id' == id && args' == args && id in s.begun && id !in s.verdict
       case Replying(left) =>
         left != [] && k.inp == [] && Judged(s, id, args) && IsReply(c.sig, k.out + left, id, s.verdict[id].outcome)
       case Dead(_, left) =>
         k.out == [] || (k.inp == [] && Judged(s, id, args) && IsReply(c.sig, k.out + left, id, s.verdict[id].outcome))
  }

  ghost predicate KidOk(c: Config, s: Sys, i: nat)
    requires Shape(c, s) && i < |s.kids|
  {
    match s.books.pool.slots[i]
    case Stopped => s.kids[i] == NoKid
    case Idle =>
      if s.consumer.Sending? && s.consumer.i == i then
        if s.consumer.left == [] then Serving(c, s, s.kids[i], Head(s).id, Head(s).args)
        else Receiving(s.kids[i], s.consumer.frame, s.consumer.left)
      else Quiet(s.kids[i])
    case Busy(id, args) => Serving(c, s, s.kids[i], id, args)
    case Broken =>
      s.consumer.Rejected? && s.consumer.i == i && Receiving(s.kids[i], s.consumer.frame, s.consumer.left)
  }

  /** No task id has begun twice, a pending task has not begun unless its request was just written in full, and
      a task lost to a dispatch_error has never begun. */
  ghost predicate BegunOk(s: Sys) {
    && (forall i, j | 0 <= i < j < |s.begun| :: s.begun[i] != s.begun[j])
    && (forall id | id in s.begun :: id in s.books.loc)
    && (forall id | id in s.begun && s.books.loc[id].Pending? ::
          s.consumer.Sending? && s.consumer.left == [] && s.books.loc[id].pos == s.books.popped)
    && (forall id | id in s.begun :: !s.books.loc[id].Lost?)
    && (forall id | id in s.verdict :: id in s.begun)
  }

  /** The result says what happened: the submitted arguments, and for ok and exception the verdict of the one
      execution of the target on them. */
  ghost predicate Honest(s: Sys, r: TaskResult) {
    && r.taskId in s.books.args && r.args == s.books.args[r.taskId]
    && (r.status.OkStatus? || r.status.Exception? ==>
          && r.taskId in s.verdict && s.verdict[r.taskId].args == r.args
          && r == ResultOf(r.taskId, r.args, s.verdict[r.taskId].outcome))
  }

  ghost predicate Inv(c: Config, s: Sys) {
    && Shape(c, s)
    && Balanced(s.books, c.budget)
    && (forall i | 0 <= i < |s.kids| :: KidOk(c, s, i))
    && BegunOk(s)
    && (forall k | 0 <= k < |s.books.delivered| :: Honest(s, s.books.delivered[k]))
  }

  lemma InvShape(c: Config, s: Sys)
    requires Inv(c, s)
    ensures Shape(c, s)
  {}

  lemma InitInv(c: Config)
    requires c.budget >= 1
    ensures Inv(c, Init(c))
  {
    OpenedBalanced(c.workers, c.budget);
  }

  lemma FramesNonEmpty(c: Config, frame: Octets, id: nat)
    ensures forall args :: IsRequest(c.sig, frame, id, args) ==> frame != []
    ensures forall outcome :: IsReply(c.sig, frame, id, outcome) ==> frame != []
  {}

  /** The head of the queue is pending, and begins only after its request was written in full. */
  lemma HeadPending(c: Config, s: Sys)
    requires Inv(c, s) && s.books.pool.pending != []
    ensures Head(s).id in s.books.loc && s.books.loc[Head(s).id] == Pending(s.books.popped)
    ensures Head(s).attempts < c.budget
    ensures Head(s).id in s.begun ==> s.consumer.Sending? && s.consumer.left == []
  {
    assert TaskOk(s.books, c.budget, 0);
  }

  // ---- Small facts about children ---------------------------------------------------------

  /** A child that has only the beginning of a request, or nothing, cannot receive. */
  lemma NothingToReceive(c: Config, k: Kid, frame: Octets, left: Octets, id: nat, args: Val)
    requires Receiving(k, frame, left) && left != [] && IsRequest(c.sig, frame, id, args) && k.phase.Await?
    ensures Receive(c.sig, k.inp) == Incomplete
  {
    PrefixWaits(c.sig, frame, Receive(c.sig, frame).packet, |k.inp|);
    assert frame[..|k.inp|] == k.inp;
  }

  /** While a reply is incomplete the parent cannot read it. */
  lemma NothingToRead(c: Config, out: Octets, left: Octets, id: nat, outcome: Outcome)
    requires IsReply(c.sig, out + left, id, outcome) && left != []
    ensures Receive(c.sig, out) == Incomplete
  {
    PrefixWaits(c.sig, out + left, Receive(c.sig, out + left).packet, |out|);
    assert (out + left)[..|out|] == out;
  }

  /** A busy slot whose child has a readable reply: it is the whole honest reply to its task. */
  lemma ReadableReply(c: Config, s: Sys, k: Kid, id: nat, args: Val)
    requires Serving(c, s, k, id, args) && !Receive(c.sig, k.out).Incomplete?
    ensures Judged(s, id, args) && IsReply(c.sig, k.out, id, s.verdict[id].outcome)
    ensures k.inp == []
    ensures k.phase.Await? || k.phase.Dead?
  {
    match k.phase
    case Await =>
    case Running(_, _) =>
    case Replying(left) => NothingToRead(c, k.out, left, id, s.verdict[id].outcome);
    case Dead(_, left) =>
      if left != [] {
        NothingToRead(c, k.out, left, id, s.verdict[id].outcome);
      } else {
        assert k.out + left == k.out;
      }
  }

  // ---- Steps of children ------------------------------------------------------------------

  /** What a step of the child at slot `i` leaves alone. */
  lemma KidFrame(c: Config, s: Sys, i: nat, step: Step)
    requires i < |s.kids| && KidStep(c, s, i, step).Some?
    ensures var s' := KidStep(c, s, i, step).value;
      && s'.books == s.books && s'.consumer == s.consumer && s'.producer == s.producer
      && s'.controller == s.controller && s'.state == s.state && s'.missed == s.missed && s'.sealed == s.sealed
      && |s'.kids| == |s.kids| && forall j | 0 <= j < |s.kids| && j != i :: s'.kids[j] == s.kids[j]
  {
    hide Receive, IsReply;
  }

  /** What the steps of the other threads leave alone. */
  lemma ProducerFrame(c: Config, s: Sys, step: Step)
    requires ProducerStep(c, s, step).Some?
    ensures var s' := ProducerStep(c, s, step).value;
      s' == s.(producer := s'.producer, books := s'.books, consumer := s'.consumer, missed := s'.missed)
      && (!step.Push? ==> s'.books == s.books) && (s'.missed ==> s.missed)
  {
    hide HasType, Ledger.Push;
  }

  lemma ControllerFrame(s: Sys, step: Step)
    requires ControllerStep(s, step).Some?
    ensures var s' := ControllerStep(s, step).value;
      s' == s.(controller := s'.controller, state := s'.state, books := s'.books, kids := s'.kids, sealed := s'.sealed,
               consumer := s'.consumer, missed := s'.missed)
      && (!step.KillAll? ==> s'.books == s.books && s'.kids == s.kids && s'.sealed == s.sealed)
  {
    hide Ledger.Killed;
  }

  lemma ConsumerFrame(s: Sys, step: Step)
    requires ConsumerStep(s, step).Some?
    ensures var s' := ConsumerStep(s, step).value;
      s' == s.(consumer := s'.consumer, missed := s'.missed) && (s'.missed ==> s.missed)
  {
    hide HasWork;
  }

  lemma DispatchFrame(c: Config, s: Sys, step: Step)
    requires InDispatch(s) && DispatchStep(c, s, step).Some?
    ensures var s' := DispatchStep(c, s, step).value;
      s' == s.(consumer := s'.consumer, books := s'.books, kids := s'.kids)
  {
    hide IsRequest, Attempted, SetSlot, DispatchSlot;
  }

  lemma CollectFrame(c: Config, s: Sys, i: nat, how: How, respawned: bool)
    requires i < |s.kids| && i < |s.books.pool.slots| && CollectStep(c, s, i, how, respawned).Some?
    ensures var s' := CollectStep(c, s, i, how, respawned).value;
      s' == s.(consumer := Away, books := s'.books, kids := s'.kids)
  {
    hide Receive, Classify, Ledger.Collected;
  }

  /** The task whose child is at slot `i`, if a request for it has been written in full. */
  function TaskAt(s: Sys, i: nat): Option<(nat, Val)>
    requires i < |s.books.pool.slots|
  {
    match s.books.pool.slots[i]
    case Busy(id, args) => Some((id, args))
    case Idle =>
      if s.consumer.Sending? && s.consumer.i == i && s.consumer.left == [] && s.books.pool.pending != []
      then Some((s.books.pool.pending[0].id, s.books.pool.pending[0].args)) else None
    case _ => None
  }

  lemma TasksDistinct(c: Config, s: Sys, i: nat, j: nat)
    requires Shape(c, s) && Balanced(s.books, c.budget) && i < |s.kids| && j < |s.kids| && i != j
    requires TaskAt(s, i).Some? && TaskAt(s, j).Some?
    ensures TaskAt(s, i).value.0 != TaskAt(s, j).value.0
  {
    if s.books.pool.slots[i].Busy? {
      assert SlotOk(s.books, i);
    }
    if s.books.pool.slots[j].Busy? {
      assert SlotOk(s.books, j);
    }
    if s.books.pool.pending != [] {
      assert TaskOk(s.books, c.budget, 0);
    }
  }

  /** Serving survives a step that begins or judges another task. */
  lemma ServingKept(c: Config, s: Sys, s': Sys, k: Kid, id: nat, args: Val)
    requires Serving(c, s, k, id, args)
    requires id in s'.begun <==> id in s.begun
    requires id in s'.verdict <==> id in s.verdict
    requires id in s.verdict ==> s'.verdict[id] == s.verdict[id]
    ensures Serving(c, s', k, id, args)
  {}

  /** Children of other slots do not notice a step at slot `i`. */
  lemma OtherSlots(c: Config, s: Sys, s': Sys, i: nat)
    requires Inv(c, s) && Shape(c, s') && i < |s.kids| == |s'.kids|
    requires s'.begun == s.begun && s'.verdict == s.verdict
    requires forall j | 0 <= j < |s.kids| && j != i ::
      s'.kids[j] == s.kids[j] && s'.books.pool.slots[j] == s.books.pool.slots[j]
    requires (s'.consumer == s.consumer && s'.books == s.books) ||
      (((s.consumer.Sending? || s.consumer.Rejected?) ==> s.consumer.i == i) &&
       ((s'.consumer.Sending? || s'.consumer.Rejected?) ==> s'.consumer.i == i))
    ensures forall j | 0 <= j < |s'.kids| && j != i :: KidOk(c, s', j)
  {
    forall j | 0 <= j < |s'.kids| && j != i
      ensures KidOk(c, s', j)
    {
      assert KidOk(c, s, j);
    }
  }

  lemma KidReceiveOk(c: Config, s: Sys, i: nat)
    requires Inv(c, s) && i < |s.kids| && KidStep(c, s, i, KidReceive(i)).Some?
    ensures TaskAt(s, i).Some?
    ensures var (id, args) := TaskAt(s, i).value;
      && id !in s.begun && id in s.books.loc
      && KidStep(c, s, i, KidReceive(i)).value ==
           s.(kids := s.kids[i := s.kids[i].(inp := [], phase := Running(id, args))], begun := s.begun + [id])
      && s.kids[i].out == []
  {
    assert KidOk(c, s, i);
    var k := s.kids[i];
    if TaskAt(s, i).Some? {
      var (id, args) := TaskAt(s, i).value;
      assert Serving(c, s, k, id, args);
      if s.books.pool.slots[i].Busy? {
        assert SlotOk(s.books, i);
      } else {
        assert TaskOk(s.books, c.budget, 0);
      }
    } else if (s.consumer.Sending? || s.consumer.Rejected?) && s.consumer.i == i {
      NothingToReceive(c, k, s.consumer.frame, s.consumer.left, Head(s).id, Head(s).args);
    }
  }

  /** Children other than `i` are as before when nothing they depend on changed for their tasks. */
  lemma OthersOk(c: Config, s: Sys, s': Sys, i: nat)
    requires Inv(c, s) && Shape(c, s') && i < |s.kids| && s'.consumer == s.consumer && s'.books == s.books
    requires |s'.kids| == |s.kids| && forall j | 0 <= j < |s.kids| && j != i :: s'.kids[j] == s.kids[j]
    requires TaskAt(s, i).Some?
    requires forall id | id != TaskAt(s, i).value.0 ::
      (id in s'.begun <==> id in s.begun) && (id in s'.verdict <==> id in s.verdict)
      && (id in s.verdict ==> s'.verdict[id] == s.verdict[id])
    ensures forall j | 0 <= j < |s.kids| && j != i :: KidOk(c, s', j)
  {
    forall j | 0 <= j < |s.kids| && j != i
      ensures KidOk(c, s', j)
    {
      assert KidOk(c, s, j);
      if TaskAt(s, j).Some? {
        var (id, args) := TaskAt(s, j).value;
        TasksDistinct(c, s, i, j);
        ServingKept(c, s, s', s.kids[j], id, args);
      }
    }
  }

  lemma HonestKept(s: Sys, s': Sys)
    requires forall k | 0 <= k < |s.books.delivered| :: Honest(s, s.books.delivered[k])
    requires s'.books == s.books && forall id | id in s.verdict :: id in s'.verdict && s'.verdict[id] == s.verdict[id]
    ensures forall k | 0 <= k < |s'.books.delivered| :: Honest(s', s'.books.delivered[k])
  {
    forall k | 0 <= k < |s'.books.delivered|
      ensures Honest(s', s'.books.delivered[k])
    {
      assert Honest(s, s.books.delivered[k]);
    }
  }

  /** A step of the child at slot `i` changes nothing but that child and the record of its own task. */
  ghost predicate OnlyKid(s: Sys, s': Sys, i: nat) {
    && s'.books == s.books && s'.consumer == s.consumer && s'.producer == s.producer
    && |s'.kids| == |s.kids| && (forall j | 0 <= j < |s.kids| && j != i :: s'.kids[j] == s.kids[j])
    && (forall id | id in s.verdict :: id in s'.verdict && s'.verdict[id] == s.verdict[id])
  }

  /** Such a step keeps the invariant when the child goes on serving its task. */
  lemma KidServes(c: Config, s: Sys, s': Sys, i: nat)
    requires Inv(c, s) && i < |s.kids| && i < |s.books.pool.slots| && OnlyKid(s, s', i) && BegunOk(s')
    requires TaskAt(s, i).Some? && Serving(c, s', s'.kids[i], TaskAt(s, i).value.0, TaskAt(s, i).value.1)
    requires forall id | id != TaskAt(s, i).value.0 ::
      (id in s'.begun <==> id in s.begun) && (id in s'.verdict <==> id in s.verdict)
    ensures Inv(c, s')
  {
    hide Receive, HasType, IsRequest, Serving, Balanced, BegunOk, Honest;
    OthersOk(c, s, s', i);
    assert KidOk(c, s', i);
    HonestKept(s, s');
  }

  lemma KidReceiveKeeps(c: Config, s: Sys, i: nat)
    requires Inv(c, s) && i < |s.kids| && KidStep(c, s, i, KidReceive(i)).Some?
    ensures Inv(c, KidStep(c, s, i, KidReceive(i)).value)
  {
    hide Receive, HasType, IsRequest, Balanced, KidOk, Honest, BegunOk, KidStep;
    KidReceiveOk(c, s, i);
    var s' := KidStep(c, s, i, KidReceive(i)).value;
    FirstBegin(c, s, i, s');
    KidServes(c, s, s', i);
  }

  /** The task begins for the first time. */
  lemma FirstBegin(c: Config, s: Sys, i: nat, s': Sys)
    requires Inv(c, s) && i < |s.kids| && i < |s.books.pool.slots| && TaskAt(s, i).Some?
    requires TaskAt(s, i).value.0 !in s.begun && TaskAt(s, i).value.0 in s.books.loc
    requires s'.books == s.books && s'.consumer == s.consumer && s'.verdict == s.verdict
      && s'.begun == s.begun + [TaskAt(s, i).value.0]
    ensures BegunOk(s') && TaskAt(s, i).value.0 !in s.verdict
  {
    hide IsRequest, HasType, KidOk, Honest, AccountsOk, CountsOk;
    if s.books.pool.slots[i].Busy? {
      assert SlotOk(s.books, i);
    } else {
      assert TaskOk(s.books, c.budget, 0);
    }
  }

  /** A child that runs or answers does so for the task of its slot. */
  lemma WorksForTask(c: Config, s: Sys, i: nat)
    requires Inv(c, s) && i < |s.kids| && s.kids[i].Kid? && (s.kids[i].phase.Running? || s.kids[i].phase.Replying?)
    ensures i < |s.books.pool.slots| && TaskAt(s, i).Some?
    ensures Serving(c, s, s.kids[i], TaskAt(s, i).value.0, TaskAt(s, i).value.1)
  {
    hide IsRequest, IsReply, HasType, Balanced, BegunOk, Honest;
    assert KidOk(c, s, i);
  }

  lemma KidFinishKeeps(c: Config, s: Sys, i: nat, outcome: Outcome, frame: Octets)
    requires Inv(c, s) && i < |s.kids| && KidStep(c, s, i, KidFinish(i, outcome, frame)).Some?
    ensures Inv(c, KidStep(c, s, i, KidFinish(i, outcome, frame)).value)
  {
    hide Receive, HasType, IsRequest, IsReply, Balanced, KidOk, Honest, Shape;
    WorksForTask(c, s, i);
    var s' := KidStep(c, s, i, KidFinish(i, outcome, frame)).value;
    var (id, args) := TaskAt(s, i).value;
    assert [] + frame == frame;
    FramesNonEmpty(c, frame, id);
    KidServes(c, s, s', i);
  }

  lemma KidWriteKeeps(c: Config, s: Sys, i: nat, n: nat)
    requires Inv(c, s) && i < |s.kids| && KidStep(c, s, i, KidWrite(i, n)).Some?
    ensures Inv(c, KidStep(c, s, i, KidWrite(i, n)).value)
  {
    hide Receive, HasType, IsRequest, IsReply, Balanced, KidOk, Honest, Shape;
    WorksForTask(c, s, i);
    var s' := KidStep(c, s, i, KidWrite(i, n)).value;
    var left := s.kids[i].phase.left;
    assert s.kids[i].out + left[..n] + left[n..] == s.kids[i].out + left;
    assert left[n..] == [] ==> left[..n] == left;
    KidServes(c, s, s', i);
  }

  lemma KidDieKeeps(c: Config, s: Sys, i: nat, w: WaitStatus)
    requires Inv(c, s) && i < |s.kids| && KidStep(c, s, i, KidDie(i, w)).Some?
    ensures Inv(c, KidStep(c, s, i, KidDie(i, w)).value)
  {
    hide Receive, HasType, IsRequest, IsReply, Balanced, KidOk, Honest, Serving;
    var s' := KidStep(c, s, i, KidDie(i, w)).value;
    OtherSlots(c, s, s', i);
    KidDies(c, s, s', i);
    HonestKept(s, s');
  }

  lemma KidDies(c: Config, s: Sys, s': Sys, i: nat)
    requires Inv(c, s) && i < |s.kids| && Shape(c, s') && s.kids[i].Kid? && !s.kids[i].phase.Dead?
    requires s'.books == s.books && s'.consumer == s.consumer && s'.begun == s.begun && s'.verdict == s.verdict
    requires |s'.kids| == |s.kids| && s'.kids[i].Kid? && s'.kids[i].inp == s.kids[i].inp
      && s'.kids[i].out == s.kids[i].out && s'.kids[i].phase.Dead?
    requires s'.kids[i].phase.left == if s.kids[i].phase.Replying? then s.kids[i].phase.left else []
    ensures KidOk(c, s', i)
  {
    hide Receive, HasType, IsRequest, IsReply, Balanced, Honest, BegunOk, Serving;
    assert KidOk(c, s, i);
    if TaskAt(s, i).Some? {
      var (id, args) := TaskAt(s, i).value;
      ServingDies(c, s, s.kids[i], s'.kids[i], id, args);
      ServingKept(c, s, s', s'.kids[i], id, args);
    }
  }

  lemma ServingDies(c: Config, s: Sys, k: Kid, k': Kid, id: nat, args: Val)
    requires Serving(c, s, k, id, args) && !k.phase.Dead? && k'.Kid? && k'.out == k.out && k'.inp == k.inp
      && k'.phase.Dead?
    requires k'.phase.left == if k.phase.Replying? then k.phase.left else []
    ensures Serving(c, s, k', id, args)
  {
    assert k.out + [] == k.out;
  }

  // ---- Steps of the parent's threads ------------------------------------------------------

  /** Steps that only move a thread, or change the pool's state. */
  lemma Moves(c: Config, s: Sys, s': Sys)
    requires Inv(c, s) && Shape(c, s') && s'.books == s.books && s'.kids == s.kids
    requires s'.begun == s.begun && s'.verdict == s.verdict
    requires s'.consumer == s.consumer ||
      (!s.consumer.Sending? && !s.consumer.Rejected? && !s'.consumer.Sending? && !s'.consumer.Rejected?)
    ensures Inv(c, s')
  {
    hide Receive, HasType, Balanced;
    forall j | 0 <= j < |s'.kids|
      ensures KidOk(c, s', j)
    {
      assert KidOk(c, s, j);
    }
    HonestKept(s, s');
  }

  lemma ProducerKeeps(c: Config, s: Sys, step: Step)
    requires Inv(c, s) && ProducerStep(c, s, step).Some?
    ensures Inv(c, ProducerStep(c, s, step).value)
  {
    hide Receive, Balanced, BegunOk, Honest;
    if step.Push? {
      PushStepKeeps(c, s);
    } else {
      Moves(c, s, ProducerStep(c, s, step).value);
    }
  }

  lemma PushStepKeeps(c: Config, s: Sys)
    requires Inv(c, s) && s.producer.Checked?
    ensures Inv(c, s.(producer := OwesOne, books := Ledger.Push(s.books, s.producer.args)))
  {
    hide Receive, HasType, Balanced, BegunOk, Honest;
    var s' := s.(producer := OwesOne, books := Ledger.Push(s.books, s.producer.args));
    PushKeeps(s.books, s.producer.args, c.budget);
    forall j | 0 <= j < |s'.kids|
      ensures KidOk(c, s', j)
    {
      assert KidOk(c, s, j);
      if TaskAt(s, j).Some? {
        ServingKept(c, s, s', s.kids[j], TaskAt(s, j).value.0, TaskAt(s, j).value.1);
      }
    }
    PushBegun(c, s, s');
  }

  lemma PushBegun(c: Config, s: Sys, s': Sys)
    requires Inv(c, s) && s.producer.Checked? && s'.books == Ledger.Push(s.books, s.producer.args)
    requires s'.begun == s.begun && s'.verdict == s.verdict && s'.consumer == s.consumer
    ensures BegunOk(s') && forall k | 0 <= k < |s'.books.delivered| :: Honest(s', s'.books.delivered[k])
  {
    hide Receive, HasType, Serving;
    assert s.books.pool.nextId !in s.books.loc;
    forall k | 0 <= k < |s'.books.delivered|
      ensures Honest(s', s'.books.delivered[k])
    {
      assert Honest(s, s.books.delivered[k]);
    }
  }

  lemma ControllerKeeps(c: Config, s: Sys, step: Step)
    requires Inv(c, s) && ControllerStep(s, step).Some?
    ensures Inv(c, ControllerStep(s, step).value)
  {
    hide Receive, HasType, Serving, Balanced, BegunOk, Honest;
    if step.KillAll? {
      var s' := ControllerStep(s, step).value;
      KilledKeeps(s.books, c.budget);
      KilledBegun(c, s, s');
      SameResults(c, s, s');
    } else {
      Moves(c, s, ControllerStep(s, step).value);
    }
  }

  lemma KilledBegun(c: Config, s: Sys, s': Sys)
    requires BegunOk(s) && s'.books == Ledger.Killed(s.books) && s'.begun == s.begun && s'.verdict == s.verdict
    ensures BegunOk(s')
  {}

  lemma ConsumerKeeps(c: Config, s: Sys, step: Step)
    requires Inv(c, s) && ConsumerStep(s, step).Some?
    requires !InDispatch(s)
    ensures Inv(c, ConsumerStep(s, step).value)
  {
    hide Inv, ConsumerStep;
    ConsumerFrame(s, step);
    ConsumerMoves(c, s, step);
    Moves(c, s, ConsumerStep(s, step).value);
  }

  lemma ConsumerMoves(c: Config, s: Sys, step: Step)
    requires Inv(c, s) && ConsumerStep(s, step).Some? && !InDispatch(s)
    ensures var s' := ConsumerStep(s, step).value;
      Shape(c, s') && !s'.consumer.Sending? && !s'.consumer.Rejected?
  {
    hide IsRequest, HasType, HasWork, Readable, Balanced, BegunOk, Honest, KidOk;
  }

  /** The books change by an operation that keeps them balanced and adds no result. */
  lemma SameResults(c: Config, s: Sys, s': Sys)
    requires forall k | 0 <= k < |s.books.delivered| :: Honest(s, s.books.delivered[k])
    requires s'.books.delivered == s.books.delivered && s'.books.args == s.books.args && s'.verdict == s.verdict
    ensures forall k | 0 <= k < |s'.books.delivered| :: Honest(s', s'.books.delivered[k])
  {
    forall k | 0 <= k < |s'.books.delivered|
      ensures Honest(s', s'.books.delivered[k])
    {
      assert Honest(s, s.books.delivered[k]);
    }
  }

  lemma SpawnKeeps(c: Config, s: Sys, ok: bool)
    requires Inv(c, s) && s.consumer.Dispatching? && DispatchStep(c, s, Spawn(ok)).Some?
    ensures Inv(c, DispatchStep(c, s, Spawn(ok)).value)
  {
    hide Receive, HasType, Balanced, Honest;
    var s' := DispatchStep(c, s, Spawn(ok)).value;
    var i := s.consumer.i;
    assert KidOk(c, s, i);
    if ok {
      SetSlotKeeps(s.books, i, Idle, c.budget);
    } else {
      AttemptedKeeps(s.books, i, SpawnFailed, c.budget);
    }
    OtherSlots(c, s, s', i);
    assert KidOk(c, s', i);
    SameResults(c, s, s');
  }

  lemma BeginSendKeeps(c: Config, s: Sys, frame: Octets)
    requires Inv(c, s) && s.consumer.Dispatching? && DispatchStep(c, s, BeginSend(frame)).Some?
    ensures Inv(c, DispatchStep(c, s, BeginSend(frame)).value)
  {
    hide Receive, HasType, Balanced, Honest;
    var s' := DispatchStep(c, s, BeginSend(frame)).value;
    var i := s.consumer.i;
    assert KidOk(c, s, i);
    FramesNonEmpty(c, frame, Head(s).id);
    assert [] + frame == frame;
    OtherSlots(c, s, s', i);
    assert KidOk(c, s', i);
    SameResults(c, s, s');
  }

  /** What the three ways to settle the head of the queue at slot `i` have in common. */
  lemma AfterAttempt(c: Config, s: Sys, s': Sys, i: nat, a: Attempt)
    requires Inv(c, s) && i < |s.kids| && s.books.pool.pending != [] && !s.books.pool.slots[i].Busy? && !a.SpawnFailed?
    requires s'.books == Attempted(s.books, i, a, c.budget) && s'.begun == s.begun && s'.verdict == s.verdict
    requires s.consumer.Sending? && s.consumer.left == [] ==> a.Took?
    requires ConsumerHoldsPending(s.consumer)
    requires s'.producer == s.producer && (s'.consumer.Away? || s'.consumer.Dispatching?)
    requires |s'.kids| == |s.kids|
    ensures Shape(c, s') && Balanced(s'.books, c.budget) && BegunOk(s')
    ensures s'.books.pool.slots == s.books.pool.slots[i := s'.books.pool.slots[i]]
    ensures forall k | 0 <= k < |s'.books.delivered| :: Honest(s', s'.books.delivered[k])
  {
    hide Receive, HasType, Serving;
    AttemptedKeeps(s.books, i, a, c.budget);
    HeadPending(c, s);
    HeadMoves(c, s, s', i, a);
    SameResults(c, s, s');
  }

  lemma HeadMoves(c: Config, s: Sys, s': Sys, i: nat, a: Attempt)
    requires BegunOk(s) && i < |s.books.pool.slots| && s.books.pool.pending != [] && !a.SpawnFailed?
    requires s'.books == Attempted(s.books, i, a, c.budget) && s'.begun == s.begun && s'.verdict == s.verdict
    requires Head(s).id in s.books.loc && s.books.loc[Head(s).id] == Pending(s.books.popped)
    requires QueueOk(s.books, c.budget)
    requires Head(s).id in s.begun ==> a.Took?
    ensures BegunOk(s')
  {
    assert TaskOk(s.books, c.budget, 0);
  }

  lemma CannotSendKeeps(c: Config, s: Sys)
    requires Inv(c, s) && s.consumer.Dispatching? && DispatchStep(c, s, CannotSend).Some?
    ensures Inv(c, DispatchStep(c, s, CannotSend).value)
  {
    hide Receive, HasType, Balanced, BegunOk, Honest;
    var s' := DispatchStep(c, s, CannotSend).value;
    var i := s.consumer.i;
    assert KidOk(c, s, i);
    AfterAttempt(c, s, s', i, CannotSerialize);
    OtherSlots(c, s, s', i);
    assert KidOk(c, s', i);
  }

  lemma SendChunkKeeps(c: Config, s: Sys, n: nat)
    requires Inv(c, s) && s.consumer.Sending? && DispatchStep(c, s, SendChunk(n)).Some?
    ensures Inv(c, DispatchStep(c, s, SendChunk(n)).value)
  {
    hide Receive, HasType, Balanced, Honest;
    var s' := DispatchStep(c, s, SendChunk(n)).value;
    var i := s.consumer.i;
    var k, left := s.kids[i], s.consumer.left;
    assert KidOk(c, s, i);
    assert k.inp + left[..n] + left[n..] == k.inp + left;
    assert left[n..] == [] ==> left[..n] == left;
    HeadPending(c, s);
    assert s.consumer.frame + [] == s.consumer.frame;
    OtherSlots(c, s, s', i);
    assert KidOk(c, s', i);
    SameResults(c, s, s');
  }

  lemma SendDoneKeeps(c: Config, s: Sys)
    requires Inv(c, s) && s.consumer.Sending? && DispatchStep(c, s, SendDone).Some?
    ensures Inv(c, DispatchStep(c, s, SendDone).value)
  {
    hide Receive, HasType, Balanced, BegunOk, Honest;
    var s' := DispatchStep(c, s, SendDone).value;
    var i := s.consumer.i;
    assert KidOk(c, s, i);
    AfterAttempt(c, s, s', i, Took);
    OtherSlots(c, s, s', i);
    ServingKept(c, s, s', s.kids[i], Head(s).id, Head(s).args);
    assert KidOk(c, s', i);
  }

  lemma SendFailKeeps(c: Config, s: Sys, status: SendStatus)
    requires Inv(c, s) && s.consumer.Sending? && DispatchStep(c, s, SendFail(status)).Some?
    ensures Inv(c, DispatchStep(c, s, SendFail(status)).value)
  {
    hide Receive, HasType, Balanced, Honest;
    var s' := DispatchStep(c, s, SendFail(status)).value;
    var i := s.consumer.i;
    assert KidOk(c, s, i);
    SetSlotKeeps(s.books, i, Broken, c.budget);
    OtherSlots(c, s, s', i);
    assert KidOk(c, s', i);
    SameResults(c, s, s');
  }

  lemma DiscardKeeps(c: Config, s: Sys, respawned: bool)
    requires Inv(c, s) && s.consumer.Rejected? && DispatchStep(c, s, Discard(respawned)).Some?
    ensures Inv(c, DispatchStep(c, s, Discard(respawned)).value)
  {
    hide Receive, HasType, Balanced, BegunOk, Honest, Serving;
    var s' := DispatchStep(c, s, Discard(respawned)).value;
    var i := s.consumer.i;
    assert KidOk(c, s, i);
    AfterAttempt(c, s, s', i, Failed(s.consumer.status, respawned));
    OtherSlots(c, s, s', i);
    assert KidOk(c, s', i);
  }

  lemma DispatchKeeps(c: Config, s: Sys, step: Step)
    requires Inv(c, s) && InDispatch(s)
    requires DispatchStep(c, s, step).Some?
    ensures Inv(c, DispatchStep(c, s, step).value)
  {
    hide Receive, HasType, Balanced, BegunOk, Honest, KidOk;
    match step
    case NextSlot => Moves(c, s, DispatchStep(c, s, step).value);
    case Spawn(ok) => SpawnKeeps(c, s, ok);
    case BeginSend(frame) => BeginSendKeeps(c, s, frame);
    case CannotSend => CannotSendKeeps(c, s);
    case SendChunk(n) => SendChunkKeeps(c, s, n);
    case SendDone => SendDoneKeeps(c, s);
    case SendFail(status) => SendFailKeeps(c, s, status);
    case Discard(respawned) => DiscardKeeps(c, s, respawned);
    case _ =>
  }

  /** In every reachable state a readable reply belongs to the task in flight and is ok or exception: the
      branches for a foreign id, an unexpected kind and a bad frame cannot be taken. */
  lemma OnlyHonestReplies(c: Config, s: Sys, i: nat)
    requires Inv(c, s) && i < |s.kids| && s.books.pool.slots[i].Busy?
    ensures s.kids[i].Kid? && !Receive(c.sig, s.kids[i].out).Bad?
    ensures Receive(c.sig, s.kids[i].out).Got? ==>
      var slot := s.books.pool.slots[i];
      && slot.id in s.verdict && s.verdict[slot.id].args == slot.args && Receive(c.sig, s.kids[i].out).rest == []
      && FinishTask(slot.id, slot.args, Receive(c.sig, s.kids[i].out).packet)
         == (ResultOf(slot.id, slot.args, s.verdict[slot.id].outcome), true)
  {
    assert KidOk(c, s, i);
    var slot := s.books.pool.slots[i];
    if !Receive(c.sig, s.kids[i].out).Incomplete? {
      ReadableReply(c, s, s.kids[i], slot.id, slot.args);
      HonestReply(c.sig, s.kids[i].out, slot.id, slot.args, s.verdict[slot.id].outcome);
    }
  }

  lemma CollectKeeps(c: Config, s: Sys, i: nat, how: How, respawned: bool)
    requires Inv(c, s) && i < |s.kids| && CollectStep(c, s, i, how, respawned).Some?
    ensures Inv(c, CollectStep(c, s, i, how, respawned).value)
  {
    hide Receive, HasType, Balanced, BegunOk, Classify, Serving;
    var s' := CollectStep(c, s, i, how, respawned).value;
    var slot := s.books.pool.slots[i];
    ClassifyHonest(c, s, i, how);
    var (result, reusable) := Classify(c, s.kids[i], slot.id, slot.args, how).value;
    CollectedKeeps(s.books, i, result, reusable, respawned, c.budget);
    OtherSlots(c, s, s', i);
    assert KidOk(c, s', i);
    CollectBegun(c, s, s', i);
    forall k | 0 <= k < |s'.books.delivered|
      ensures Honest(s', s'.books.delivered[k])
    {
      if k < |s.books.delivered| {
        assert Honest(s, s.books.delivered[k]);
      }
    }
  }

  /** Whatever was observed, the result built from it is honest, and a kept child is quiet. */
  lemma ClassifyHonest(c: Config, s: Sys, i: nat, how: How)
    requires Inv(c, s) && i < |s.kids| && s.books.pool.slots[i].Busy?
    requires Classify(c, s.kids[i], s.books.pool.slots[i].id, s.books.pool.slots[i].args, how).Some?
    ensures var (result, reusable) :=
      Classify(c, s.kids[i], s.books.pool.slots[i].id, s.books.pool.slots[i].args, how).value;
      && result.taskId == s.books.pool.slots[i].id && Honest(s, result)
      && (reusable ==> Receive(c.sig, s.kids[i].out) == Got(Receive(c.sig, s.kids[i].out).packet, [])
                       && Quiet(s.kids[i].(out := [])))
  {
    var slot := s.books.pool.slots[i];
    assert SlotOk(s.books, i);
    assert KidOk(c, s, i);
    OnlyHonestReplies(c, s, i);
    if Receive(c.sig, s.kids[i].out).Got? {
      ReadableReply(c, s, s.kids[i], slot.id, slot.args);
    }
  }

  lemma CollectBegun(c: Config, s: Sys, s': Sys, i: nat)
    requires BegunOk(s) && s'.begun == s.begun && s'.verdict == s.verdict && i < |s.books.pool.slots|
      && s.books.pool.slots[i].Busy?
    requires exists r, reusable, respawned :: s'.books == Ledger.Collected(s.books, i, r, reusable, respawned)
    requires !s.consumer.Sending?
    ensures BegunOk(s')
  {}

  /** Every step of every thread and every child keeps the invariant. */
  lemma StepKeeps(c: Config, s: Sys, step: Step)
    requires Inv(c, s) && Next(c, s, step).Some?
    ensures Inv(c, Next(c, s, step).value)
  {
    hide Inv, ProducerStep, ControllerStep, KidStep, DispatchStep, ConsumerStep, CollectStep;
    match step
    case BeginSubmit(_) => ProducerKeeps(c, s, step);
    case Push => ProducerKeeps(c, s, step);
    case NotifyOne => ProducerKeeps(c, s, step);
    case StopCas => ControllerKeeps(c, s, step);
    case StopNotify => ControllerKeeps(c, s, step);
    case KillStore => ControllerKeeps(c, s, step);
    case KillAll => ControllerKeeps(c, s, step);
    case KillNotify => ControllerKeeps(c, s, step);
    case KidReceive(i) => KidReceiveKeeps(c, s, i);
    case KidFinish(i, outcome, frame) => KidFinishKeeps(c, s, i, outcome, frame);
    case KidWrite(i, n) => KidWriteKeeps(c, s, i, n);
    case KidDie(i, w) => KidDieKeeps(c, s, i, w);
    case Collect(i, how, respawned) => CollectKeeps(c, s, i, how, respawned);
    case _ =>
      if InDispatch(s) {
        DispatchKeeps(c, s, step);
      } else {
        ConsumerKeeps(c, s, step);
      }
  }

  lemma {:induction false} RunKeeps(c: Config, s: Sys, steps: seq<Step>)
    requires Inv(c, s) && Run(c, s, steps).Some?
    ensures Inv(c, Run(c, s, steps).value)
    decreases |steps|
  {
    if steps == [] {
    } else {
      StepKeeps(c, s, steps[0]);
      RunKeeps(c, Next(c, s, steps[0]).value, steps[1..]);
    }
  }

  lemma ReachableInv(c: Config, s: Sys)
    requires c.budget >= 1 && Reachable(c, s)
    ensures Inv(c, s)
  {
    var steps :| Run(c, Init(c), steps) == Some(s);
    InitInv(c);
    RunKeeps(c, Init(c), steps);
  }
}
