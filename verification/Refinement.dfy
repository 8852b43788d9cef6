/** Isolated mode refines in-process mode: what the worker pool reports is what calling the target in order would
    report. */
module Refinement {
  import opened Codec
  import opened Frame
  import opened WorkerSpec
  import opened PoolSpec
  import opened Ledger
  import opened System
  import opened Safety

  /** The argument tuples submitted so far, in submission order. */
  function Calls(b: Books): (calls: seq<Val>)
    requires IdsRange(b)
    ensures |calls| == b.pool.nextId - 1
  {
    seq(b.pool.nextId - 1, k requires 0 <= k < b.pool.nextId - 1 => b.args[k + 1])
  }

  predicate IdsRange(b: Books) {
    b.pool.nextId >= 1 && forall id | 1 <= id < b.pool.nextId :: id in b.args
  }

  /** In this step a finished target call ends the way `f` says. */
  predicate StepFollows(s: Sys, step: Step, f: Val -> Outcome) {
    step.KidFinish? ==>
      step.i < |s.kids| && s.kids[step.i].Kid? && s.kids[step.i].phase.Running?
        && step.outcome == f(s.kids[step.i].phase.args)
  }

  predicate Follows(c: Config, s: Sys, steps: seq<Step>, f: Val -> Outcome)
    decreases |steps|
  {
    steps == [] ||
    (StepFollows(s, steps[0], f) && (Next(c, s, steps[0]).Some? ==>
      Follows(c, Next(c, s, steps[0]).value, steps[1..], f)))
  }

  ghost predicate VerdictsOf(s: Sys, f: Val -> Outcome) {
    forall id | id in s.verdict :: s.verdict[id].outcome == f(s.verdict[id].args)
  }

  lemma VerdictStep(c: Config, s: Sys, step: Step, f: Val -> Outcome)
    requires VerdictsOf(s, f) && StepFollows(s, step, f) && Next(c, s, step).Some?
    ensures VerdictsOf(Next(c, s, step).value, f)
  {
    hide KidStep;
    if OfKid(step) {
      VerdictKid(c, s, step.i, step, f);
    } else {
      VerdictOthers(c, s, step);
    }
  }

  lemma VerdictKid(c: Config, s: Sys, i: nat, step: Step, f: Val -> Outcome)
    requires VerdictsOf(s, f) && StepFollows(s, step, f) && OfKid(step) && i == step.i < |s.kids|
      && KidStep(c, s, i, step).Some?
    ensures VerdictsOf(KidStep(c, s, i, step).value, f)
  {
    hide Receive, IsReply;
  }

  lemma VerdictOthers(c: Config, s: Sys, step: Step)
    requires !OfKid(step) && Next(c, s, step).Some?
    ensures Next(c, s, step).value.verdict == s.verdict
  {
    hide ProducerStep, ControllerStep, KidStep, DispatchStep, ConsumerStep, CollectStep;
    if OfProducer(step) {
      ProducerFrame(c, s, step);
    } else if OfController(step) {
      ControllerFrame(s, step);
    } else if step.Collect? {
      CollectFrame(c, s, step.i, step.how, step.respawned);
    } else if InDispatch(s) {
      DispatchFrame(c, s, step);
    } else {
      ConsumerFrame(s, step);
    }
  }

  lemma {:induction false} VerdictRun(c: Config, s: Sys, steps: seq<Step>, f: Val -> Outcome)
    requires VerdictsOf(s, f) && Follows(c, s, steps, f) && Run(c, s, steps).Some?
    ensures VerdictsOf(Run(c, s, steps).value, f)
    decreases |steps|
  {
    if steps == [] {
    } else {
      VerdictStep(c, s, steps[0], f);
      VerdictRun(c, Next(c, s, steps[0]).value, steps[1..], f);
    }
  }

  /** On every run, however unlucky, an ok or exception result is the one in-process mode gives for that task. */
  lemma ResultsAgree(c: Config, steps: seq<Step>, f: Val -> Outcome, k: nat)
    requires c.budget >= 1 && Run(c, Init(c), steps).Some? && Follows(c, Init(c), steps, f)
    requires k < |Run(c, Init(c), steps).value.books.delivered|
    ensures var b := Run(c, Init(c), steps).value.books;
      && IdsRange(b) && 1 <= b.delivered[k].taskId <= |Calls(b)|
      && (b.delivered[k].status.OkStatus? || b.delivered[k].status.Exception? ==>
            b.delivered[k] == InProcess(f, Calls(b))[b.delivered[k].taskId - 1])
  {
    hide Inv, Run, Follows, InProcess, Calls, IdsRange;
    InitInv(c);
    RunKeeps(c, Init(c), steps);
    VerdictRun(c, Init(c), steps, f);
    HonestAgrees(c, Run(c, Init(c), steps).value, f, k);
  }

  lemma HonestAgrees(c: Config, s: Sys, f: Val -> Outcome, k: nat)
    requires Inv(c, s) && VerdictsOf(s, f) && k < |s.books.delivered|
    ensures var b := s.books;
      && IdsRange(b) && 1 <= b.delivered[k].taskId <= |Calls(b)|
      && (b.delivered[k].status.OkStatus? || b.delivered[k].status.Exception? ==>
            b.delivered[k] == InProcess(f, Calls(b))[b.delivered[k].taskId - 1])
  {
    hide Receive, HasType, KidOk, QueueOk, SlotsOk, CountsOk, BegunOk, Shape;
    assert Honest(s, s.books.delivered[k]);
  }

  // ---- Runs without infrastructure failures -----------------------------------------------

  /** No failed delivery, no timeout, no dead child, no immediate stop. */
  predicate Clean(step: Step) {
    !step.CannotSend? && !step.SendFail? && !step.KillAll? && (step.Collect? ==> step.how.GotPacket?)
  }

  ghost predicate CleanInv(s: Sys) {
    && s.books.lost == [] && s.books.unreported == [] && s.books.dropped == 0 && !s.consumer.Rejected?
    && (forall k | 0 <= k < |s.books.delivered| ::
      s.books.delivered[k].status.OkStatus? || s.books.delivered[k].status.Exception?)
    && (forall id | id in s.books.loc :: !s.books.loc[id].Dropped?)
  }

  lemma CleanStep(c: Config, s: Sys, step: Step)
    requires Inv(c, s) && CleanInv(s) && Clean(step) && Next(c, s, step).Some?
    ensures CleanInv(Next(c, s, step).value)
  {
    hide ProducerStep, ControllerStep, KidStep, DispatchStep, ConsumerStep, CollectStep, CleanInv, Inv;
    if OfProducer(step) {
      CleanProducer(c, s, step);
    } else if OfController(step) {
      CleanController(s, step);
    } else if OfKid(step) {
      CleanKid(c, s, step);
    } else if step.Collect? {
      CleanCollect(c, s, step.i, step.how, step.respawned);
    } else if InDispatch(s) {
      CleanDispatch(c, s, step);
    } else {
      CleanConsumer(s, step);
    }
  }

  lemma CleanProducer(c: Config, s: Sys, step: Step)
    requires CleanInv(s) && ProducerStep(c, s, step).Some?
    ensures CleanInv(ProducerStep(c, s, step).value)
  {}

  lemma CleanController(s: Sys, step: Step)
    requires CleanInv(s) && Clean(step) && ControllerStep(s, step).Some?
    ensures CleanInv(ControllerStep(s, step).value)
  {}

  lemma CleanConsumer(s: Sys, step: Step)
    requires CleanInv(s) && ConsumerStep(s, step).Some?
    ensures CleanInv(ConsumerStep(s, step).value)
  {
    hide HasWork, Readable;
  }

  lemma CleanKid(c: Config, s: Sys, step: Step)
    requires CleanInv(s) && OfKid(step) && Next(c, s, step).Some?
    ensures CleanInv(Next(c, s, step).value)
  {
    hide KidStep;
    KidFrame(c, s, step.i, step);
  }

  lemma CleanDispatch(c: Config, s: Sys, step: Step)
    requires CleanInv(s) && Clean(step) && InDispatch(s) && DispatchStep(c, s, step).Some?
    ensures CleanInv(DispatchStep(c, s, step).value)
  {
    hide IsRequest;
  }

  lemma CleanCollect(c: Config, s: Sys, i: nat, how: How, respawned: bool)
    requires Inv(c, s) && CleanInv(s) && how.GotPacket? && i < |s.kids| && CollectStep(c, s, i, how, respawned).Some?
    ensures CleanInv(CollectStep(c, s, i, how, respawned).value)
  {
    hide Receive, HasType, IsRequest, IsReply, Balanced, BegunOk, Honest, KidOk;
    OnlyHonestReplies(c, s, i);
  }

  lemma {:induction false} CleanRun(c: Config, s: Sys, steps: seq<Step>)
    requires Inv(c, s) && CleanInv(s) && Run(c, s, steps).Some? && forall k | 0 <= k < |steps| :: Clean(steps[k])
    ensures CleanInv(Run(c, s, steps).value)
    decreases |steps|
  {
    if steps == [] {
    } else {
      CleanStep(c, s, steps[0]);
      StepKeeps(c, s, steps[0]);
      assert forall k | 0 <= k < |steps[1..]| :: steps[1..][k] == steps[k + 1];
      CleanRun(c, Next(c, s, steps[0]).value, steps[1..]);
    }
  }

  lemma CleanStart(c: Config)
    ensures CleanInv(Init(c))
  {}

  /** The returned results are, task by task, those of in-process mode over the same submissions: none missing, none
      extra, none different. */
  ghost predicate MatchesInProcess(b: Books, f: Val -> Outcome) {
    && IdsRange(b) && |b.delivered| == |Calls(b)|
    && (forall k | 0 <= k < |b.delivered| ::
          1 <= b.delivered[k].taskId <= |Calls(b)|
            && b.delivered[k] == InProcess(f, Calls(b))[b.delivered[k].taskId - 1])
    && (forall j | 0 <= j < |Calls(b)| :: InProcess(f, Calls(b))[j] in b.delivered)
  }

  /** When such a run has no work left, it has returned the results of in-process mode over the same submissions. */
  lemma IsolatedRefinesInProcess(c: Config, steps: seq<Step>, f: Val -> Outcome)
    requires c.budget >= 1 && Run(c, Init(c), steps).Some? && Follows(c, Init(c), steps, f)
    requires forall k | 0 <= k < |steps| :: Clean(steps[k])
    requires !HasWork(Run(c, Init(c), steps).value.books.pool)
    ensures MatchesInProcess(Run(c, Init(c), steps).value.books, f)
  {
    hide Inv, CleanInv, Follows, Run, Clean, HasWork, Init, MatchesInProcess, VerdictsOf;
    InitInv(c);
    CleanStart(c);
    RunKeeps(c, Init(c), steps);
    CleanRun(c, Init(c), steps);
    VerdictsAtStart(c, f);
    VerdictRun(c, Init(c), steps, f);
    MatchesAtEnd(c, Run(c, Init(c), steps).value, f);
  }

  lemma VerdictsAtStart(c: Config, f: Val -> Outcome)
    ensures VerdictsOf(Init(c), f)
  {}

  lemma MatchesAtEnd(c: Config, s: Sys, f: Val -> Outcome)
    requires Inv(c, s) && CleanInv(s) && VerdictsOf(s, f) && !HasWork(s.books.pool)
    ensures MatchesInProcess(s.books, f)
  {
    hide Inv, VerdictsOf, InProcess, Calls, IdsRange, HasWork, Answered;
    AllDelivered(c, s);
    var b := s.books;
    forall k | 0 <= k < |b.delivered|
      ensures 1 <= b.delivered[k].taskId <= |Calls(b)|
        && b.delivered[k] == InProcess(f, Calls(b))[b.delivered[k].taskId - 1]
    {
      HonestAgrees(c, s, f, k);
    }
    forall j | 0 <= j < |Calls(b)|
      ensures InProcess(f, Calls(b))[j] in b.delivered
    {
      AnsweredBy(b, j + 1, InProcess(f, Calls(b))[j]);
    }
  }

  lemma AnsweredBy(b: Books, id: nat, r: TaskResult)
    requires Answered(b, id) && forall k | 0 <= k < |b.delivered| && b.delivered[k].taskId == id :: b.delivered[k] == r
    ensures r in b.delivered
  {}

  lemma AllDelivered(c: Config, s: Sys)
    requires Inv(c, s) && CleanInv(s) && !HasWork(s.books.pool)
    ensures IdsRange(s.books) && |s.books.delivered| == |Calls(s.books)|
    ensures forall id | 1 <= id < s.books.pool.nextId :: Answered(s.books, id)
  {
    hide Receive, HasType, KidOk, BegunOk, Honest, Shape;
    var b := s.books;
    CountNone(b.pool.slots);
    forall id | 1 <= id < b.pool.nextId
      ensures Answered(b, id)
    {
      assert id in b.loc && b.loc[id].Delivered?;
      assert b.delivered[b.loc[id].k].taskId == id;
    }
  }
}
