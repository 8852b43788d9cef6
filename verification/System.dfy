/** The whole runtime as a step system: producer, consumer and controller threads, the locked sections of
    the pool, and the child processes with their two byte streams. Every interleaving is a sequence of steps. */
module System {
  import opened Bytes
  import opened Codec
  import opened Frame
  import opened WorkerSpec
  import opened PoolSpec
  import opened Ledger

  /** `sig` is the tuple of the target's argument types, `budget` the effective max_dispatch_attempts. */
  datatype Config = Config(sig: Ty, workers: nat, budget: nat)

  /** Where a child is in its request loop. `left` is the part of the reply it has not written. */
  datatype Phase = Await | Running(id: nat, args: Val) | Replying(left: Octets) | Dead(w: WaitStatus, left: Octets)

  /** A child process seen from its socket: bytes written to it and not yet consumed by a whole request,
      and bytes it has written that the parent has not yet read as a whole reply. */
  datatype Kid = NoKid | Kid(inp: Octets, phase: Phase, out: Octets)

  const FRESH := Kid([], Await, [])

  /** The producer thread inside submit(). */
  datatype Producer = Outside | Checked(args: Val) | OwesOne

  /** The thread that calls stop() or stop_immediately(). */
  datatype Controller = NoStop | OwesStop | KillStored | OwesKill

  /** The consumer thread inside wait_one(). */
  datatype Consumer =
    | Away
    | Top
    | WantDispatch
    | Dispatching(i: nat)
    | Sending(i: nat, frame: Octets, left: Octets)
    | Rejected(i: nat, status: SendStatus, frame: Octets, left: Octets)
    | WantExpire
    | Expiring(i: nat)
    | Rechecking(i: nat, polling: bool, failed: bool)    // between the two looks of the deadline check of slot i
    | WantWork
    | WantSleep
    | Gap                                  // the wait predicate was false; not yet blocked
    | Asleep
    | WantPoll
    | Polling

  datatype Verdict = Verdict(args: Val, outcome: Outcome)

  /** `begun` lists the task ids whose target call a child has begun, `verdict` how those calls ended.
      `sealed`: stop_immediately() has run its locked section. `missed`: the notification of a stop() found
      the consumer between evaluating its predicate and blocking. */
  datatype Sys = Sys(
    state: PoolState, books: Books, kids: seq<Kid>,
    producer: Producer, controller: Controller, consumer: Consumer,
    begun: seq<nat>, verdict: map<nat, Verdict>, sealed: bool, missed: bool)

  /** What a collecting operation observed. A deadline check polls twice; `first` and `second` say which of its polls
      failed. */
  datatype How = TimedOut(first: bool, second: bool) | ChildExited | GotPacket | TransportFailed | BadFrame
    | InternalFailure

  datatype Step =
    | BeginSubmit(args: Val) | Push | NotifyOne
    | StopCas | StopNotify | KillStore | KillAll | KillNotify
    | Enter | TopCheck | LockDispatch | NextSlot | Spawn(ok: bool)
    | BeginSend(frame: Octets) | CannotSend | SendChunk(n: nat) | SendDone
    | SendFail(status: SendStatus) | Discard(respawned: bool)
    | LockExpire | NextExpire | FirstLook(i: nat, failed: bool) | Surface | CheckWork | CheckSleep | Block | Spurious
      | LockPoll | PollNothing | PollError
    | Collect(i: nat, how: How, respawned: bool)
    | KidReceive(i: nat) | KidFinish(i: nat, outcome: Outcome, frame: Octets)
    | KidWrite(i: nat, n: nat) | KidDie(i: nat, w: WaitStatus)

  function Init(c: Config): Sys {
    Sys(Accepting, Opened(c.workers), seq(c.workers, i => FRESH), Outside, NoStop, Away, [], map[], false, false)
  }

  // ---- Locks ------------------------------------------------------------------------------

  predicate ConsumerHoldsPending(pc: Consumer) {
    pc.Dispatching? || pc.Sending? || pc.Rejected? || pc.Gap?
  }

  predicate ConsumerHoldsWorkers(pc: Consumer) {
    pc.Dispatching? || pc.Sending? || pc.Rejected? || pc.Expiring? || pc.Rechecking? || pc.Polling?
  }

  predicate PendingFree(s: Sys) {
    !s.producer.Checked? && !ConsumerHoldsPending(s.consumer)
  }

  predicate BothFree(s: Sys) {
    PendingFree(s) && !ConsumerHoldsWorkers(s.consumer)
  }

  // ---- Steps ------------------------------------------------------------------------------

  function When(enabled: bool, s: Sys): Option<Sys> {
    if enabled then Some(s) else None
  }

  /** A notification reaches the consumer only when it is blocked; it then evaluates its predicate again. */
  function Woken(s: Sys): Sys {
    if s.consumer.Asleep? then s.(consumer := WantSleep, missed := false) else s
  }

  /** The successor state, or `None` when the step cannot happen. */
  function Next(c: Config, s: Sys, step: Step): Option<Sys> {
    match step
    case BeginSubmit(_) => ProducerStep(c, s, step)
    case Push => ProducerStep(c, s, step)
    case NotifyOne => ProducerStep(c, s, step)
    case StopCas => ControllerStep(s, step)
    case StopNotify => ControllerStep(s, step)
    case KillStore => ControllerStep(s, step)
    case KillAll => ControllerStep(s, step)
    case KillNotify => ControllerStep(s, step)
    case KidReceive(i) => if i < |s.kids| then KidStep(c, s, i, step) else None
    case KidFinish(i, _, _) => if i < |s.kids| then KidStep(c, s, i, step) else None
    case KidWrite(i, _) => if i < |s.kids| then KidStep(c, s, i, step) else None
    case KidDie(i, _) => if i < |s.kids| then KidStep(c, s, i, step) else None
    case Collect(i, how, respawned) =>
      if i < |s.kids| && i < |s.books.pool.slots| then CollectStep(c, s, i, how, respawned) else None
    case _ => if InDispatch(s)
              then DispatchStep(c, s, step) else ConsumerStep(s, step)
  }

  predicate OfProducer(step: Step) {
    step.BeginSubmit? || step.Push? || step.NotifyOne?
  }

  predicate OfController(step: Step) {
    step.StopCas? || step.StopNotify? || step.KillStore? || step.KillAll? || step.KillNotify?
  }

  predicate OfKid(step: Step) {
    step.KidReceive? || step.KidFinish? || step.KidWrite? || step.KidDie?
  }

  /** The consumer is inside dispatch_pending_tasks(). */
  predicate InDispatch(s: Sys) {
    s.consumer.Dispatching? || s.consumer.Sending? || s.consumer.Rejected?
  }

  function ProducerStep(c: Config, s: Sys, step: Step): Option<Sys> {
    match step
    case BeginSubmit(args) =>
      When(s.producer.Outside? && PendingFree(s) && s.state.Accepting? && HasType(c.sig, args)
        && s.books.pool.nextId < SIZE_LIMIT,
           s.(producer := Checked(args)))
    case Push =>
      if !s.producer.Checked? then None
      else Some(s.(producer := OwesOne, books := Ledger.Push(s.books, s.producer.args)))
    case NotifyOne => When(s.producer.OwesOne?, Woken(s.(producer := Outside)))
    case _ => None
  }

  function ControllerStep(s: Sys, step: Step): Option<Sys> {
    match step
    case StopCas =>
      When(s.controller.NoStop?,
           s.(controller := OwesStop, state := if s.state.Accepting? then Finishing else s.state))
    case StopNotify =>
      When(s.controller.OwesStop?,
           Woken(s.(controller := NoStop, missed := s.missed || s.consumer.Gap?)))
    case KillStore => When(s.controller.NoStop?, s.(controller := KillStored, state := Halted))
    case KillAll =>
      When(s.controller.KillStored? && BothFree(s),
           s.(controller := OwesKill, books := Ledger.Killed(s.books), kids := seq(|s.kids|, i => NoKid),
             sealed := true))
    case KillNotify => When(s.controller.OwesKill?, Woken(s.(controller := NoStop)))
    case _ => None
  }

  function KidStep(c: Config, s: Sys, i: nat, step: Step): Option<Sys>
    requires i < |s.kids|
  {
    var k := s.kids[i];
    if k.NoKid? then None
    else match step
      case KidReceive(_) =>
        if !k.phase.Await? then None
        else (match Receive(c.sig, k.inp)
          case Incomplete => None
          case Bad => Some(s.(kids := s.kids[i := k.(phase := Dead(Exited(EXIT_PROTOCOL_ERROR), []))]))
          case Got(p, rest) =>
            if p.header.kind == KIND_STOP then
              Some(s.(kids := s.kids[i := k.(inp := rest, phase := Dead(Exited(EXIT_OK), []))]))
            else if p.header.kind != KIND_RUN || !p.payload.Args? then
              Some(s.(kids := s.kids[i := k.(inp := rest, phase := Dead(Exited(EXIT_PROTOCOL_ERROR), []))]))
            else
              Some(s.(kids := s.kids[i := k.(inp := rest, phase := Running(p.header.taskId, p.payload.args))],
                      begun := s.begun + [p.header.taskId])))
      case KidFinish(_, outcome, frame) =>
        if !k.phase.Running? || !IsReply(c.sig, frame, k.phase.id, outcome) then None
        else Some(s.(kids := s.kids[i := k.(phase := Replying(frame))],
                     verdict := s.verdict[k.phase.id := Verdict(k.phase.args, outcome)]))
      case KidWrite(_, n) =>
        if !k.phase.Replying? || !(0 < n <= |k.phase.left|) then None
        else
          var left := k.phase.left[n..];
          var phase := if left == [] then Await else Replying(left);
          Some(s.(kids := s.kids[i := k.(out := k.out + k.phase.left[..n], phase := phase)]))
      case KidDie(_, w) =>
        var left := if k.phase.Replying? then k.phase.left else [];
        When(!k.phase.Dead?, s.(kids := s.kids[i := k.(phase := Dead(w, left))]))
      case _ => None
  }

  /** Inside dispatch_pending_tasks(), with both locks held. The head of the queue stands for the popped task
      until its delivery is decided. */
  function DispatchStep(c: Config, s: Sys, step: Step): Option<Sys>
    requires InDispatch(s)
  {
    var i := s.consumer.i;
    var pool := s.books.pool;
    if step.NextSlot? && s.consumer.Dispatching? then
      if i >= |pool.slots| || pool.pending == [] then Some(s.(consumer := WantExpire))
      else When(pool.slots[i].Busy?, s.(consumer := Dispatching(i + 1)))
    else if i >= |pool.slots| || i >= |s.kids| || pool.pending == [] then None
    else
      var head := pool.pending[0];
      match step
      case Spawn(ok) =>
        When(s.consumer.Dispatching? && pool.slots[i].Stopped?,
             if ok then s.(books := SetSlot(s.books, i, Idle), kids := s.kids[i := FRESH])
             else s.(consumer := Away, books := Attempted(s.books, i, SpawnFailed, c.budget)))
      case BeginSend(frame) =>
        When(s.consumer.Dispatching? && pool.slots[i].Idle? && IsRequest(c.sig, frame, head.id, head.args),
             s.(consumer := Sending(i, frame, frame)))
      case CannotSend =>
        When(s.consumer.Dispatching? && pool.slots[i].Idle?,
             s.(consumer := Away, books := Attempted(s.books, i, CannotSerialize, c.budget)))
      case SendChunk(n) =>
        if !s.consumer.Sending? || !(0 < n <= |s.consumer.left|) || s.kids[i].NoKid? then None
        else
          Some(s.(consumer := Sending(i, s.consumer.frame, s.consumer.left[n..]),
                  kids := s.kids[i := s.kids[i].(inp := s.kids[i].inp + s.consumer.left[..n])]))
      case SendDone =>
        When(s.consumer.Sending? && s.consumer.left == [],
             s.(consumer := Dispatching(i + 1), books := Attempted(s.books, i, Took, c.budget)))
      case SendFail(status) =>
        if !s.consumer.Sending? || s.consumer.left == [] || !Poisoned(status) then None
        else Some(s.(consumer := Rejected(i, status, s.consumer.frame, s.consumer.left),
                     books := SetSlot(s.books, i, Broken)))
      case Discard(respawned) =>
        if !s.consumer.Rejected? then None
        else
          var how := Failed(s.consumer.status, respawned);
          Some(s.(consumer := if DispatchSlot(pool, i, how, c.budget).threw then Away else Dispatching(i + 1),
                  books := Attempted(s.books, i, how, c.budget),
                  kids := s.kids[i := if respawned then FRESH else NoKid]))
      case _ => None
  }

  /** The rest of wait_one(). */
  function ConsumerStep(s: Sys, step: Step): Option<Sys> {
    match step
    case Enter => When(s.consumer.Away?, s.(consumer := Top))
    case TopCheck => When(s.consumer.Top?, s.(consumer := if s.state.Halted? then Away else WantDispatch))
    case LockDispatch =>
      When(s.consumer.WantDispatch? && BothFree(s), s.(consumer := if s.state.Halted? then Away else Dispatching(0)))
    case LockExpire => When(s.consumer.WantExpire?, s.(consumer := if s.state.Halted? then Away else Expiring(0)))
    case NextExpire =>
      When(s.consumer.Expiring?,
           s.(consumer := if s.consumer.Expiring? && s.consumer.i < |s.books.pool.slots| then
             Expiring(s.consumer.i + 1) else WantWork))
    case FirstLook(i, failed) => FirstLookStep(s, i, failed)
    case Surface =>
      When(s.consumer.Rechecking? && s.consumer.i < |s.kids| && Readable(s.kids[s.consumer.i]),
           s.(consumer := if !s.consumer.Rechecking? || s.consumer.polling then Polling
             else Expiring(s.consumer.i + 1)))
    case CheckWork =>
      When(s.consumer.WantWork? && BothFree(s),
           s.(consumer := if HasWork(s.books.pool) then WantPoll else if s.state.Finishing? then Away else WantSleep))
    case CheckSleep =>
      When(s.consumer.WantSleep? && PendingFree(s),
           s.(consumer := if s.books.pool.pending != [] || !s.state.Accepting? then Top else Gap))
    case Block => When(s.consumer.Gap?, s.(consumer := Asleep))
    case Spurious => When(s.consumer.Asleep?, Woken(s))
    case LockPoll => When(s.consumer.WantPoll?, s.(consumer := if s.state.Halted? then Away else Polling))
    case PollNothing => When(s.consumer.Polling?, s.(consumer := Top))
    case PollError => When(s.consumer.Polling?, s.(consumer := Away))
    case _ => None
  }

  /** A poll() of the parent's end shows an event: bytes to read, or a hang-up. */
  predicate Readable(k: Kid) {
    k.Kid? && (k.out != [] || k.phase.Dead?)
  }

  /** The first look of a deadline check, in collect_expired_task() or in receive(), goes on to the second only when its
      poll failed or showed nothing, and the child has not ended. */
  function FirstLookStep(s: Sys, i: nat, failed: bool): Option<Sys> {
    if i >= |s.kids| || i >= |s.books.pool.slots| then None
    else
      When(s.books.pool.slots[i].Busy? && (s.consumer.Polling? || s.consumer == Expiring(i))
           && s.kids[i].Kid? && !s.kids[i].phase.Dead? && (s.kids[i].out == [] || failed),
           s.(consumer := Rechecking(i, s.consumer.Polling?, failed)))
  }

  /** Where a result may be collected from slot `i`: a timeout only after both looks of its deadline check. */
  predicate Collects(pc: Consumer, i: nat, how: How) {
    match pc
    case Polling => !how.TimedOut?
    case Expiring(j) => j == i && how.ChildExited?
    case Rechecking(j, _, failed) => j == i && (how.ChildExited? || (how.TimedOut? && how.first == failed))
    case _ => false
  }

  /** The result a collecting operation builds from what it observed, and whether the child is kept. */
  function Classify(c: Config, k: Kid, id: nat, args: Val, how: How): Option<(TaskResult, bool)> {
    if k.NoKid? then None
    else match how
      case TimedOut(_, failed) =>
        if k.phase.Dead? || (k.out != [] && !failed) then None
        else Some((MakeResult(id, args, Timeout, Fixed("worker task timed out")), false))
      case ChildExited => if k.phase.Dead? then Some((FromWaitStatus(id, args, k.phase.w), false)) else None
      case GotPacket =>
        (match Receive(c.sig, k.out) case Got(p, _) => Some(FinishTask(id, args, p)) case _ => None)
      case TransportFailed => Some((MakeResult(id, args, IpcError, Fixed("transport failure")), false))
      case BadFrame =>
        if Receive(c.sig, k.out).Bad? then Some((MakeResult(id, args, ProtocolError, Fixed("bad frame")), false))
          else None
      case InternalFailure => Some((MakeResult(id, args, InternalError, Fixed("internal failure")), false))
  }

  /** collect_expired_task() and collect_worker_event() at slot `i`: one result, then a respawn if the child
      was discarded. A failed respawn throws and the result is never returned. */
  function CollectStep(c: Config, s: Sys, i: nat, how: How, respawned: bool): Option<Sys>
    requires i < |s.kids| && i < |s.books.pool.slots|
  {
    var k := s.kids[i];
    if !s.books.pool.slots[i].Busy? || !Collects(s.consumer, i, how)
    then None
    else match Classify(c, k, s.books.pool.slots[i].id, s.books.pool.slots[i].args, how)
      case None => None
      case Some((result, reusable)) =>
        var kid := if reusable && Receive(c.sig, k.out).Got? then k.(out := Receive(c.sig, k.out).rest)
                   else if respawned then FRESH else NoKid;
        Some(s.(consumer := Away, kids := s.kids[i := kid],
                books := Ledger.Collected(s.books, i, result, reusable, respawned)))
  }

  // ---- Runs -------------------------------------------------------------------------------

  /** The state after a whole run, or `None` when some step of it cannot happen. */
  function Run(c: Config, s: Sys, steps: seq<Step>): Option<Sys>
    decreases |steps|
  {
    if steps == [] then Some(s)
    else match Next(c, s, steps[0])
      case Some(s') => Run(c, s', steps[1..])
      case None => None
  }

  ghost predicate Reachable(c: Config, s: Sys) {
    exists steps :: Run(c, Init(c), steps) == Some(s)
  }

  lemma {:induction false} RunAppend(c: Config, s: Sys, a: seq<Step>, b: seq<Step>)
    requires Run(c, s, a).Some?
    ensures Run(c, s, a + b) == Run(c, Run(c, s, a).value, b)
    decreases |a|
  {
    if a == [] {
      assert a + b == b;
    } else {
      assert (a + b)[0] == a[0] && (a + b)[1..] == a[1..] + b;
      RunAppend(c, Next(c, s, a[0]).value, a[1..], b);
    }
  }

  lemma One(c: Config, s: Sys, step: Step, rest: seq<Step>)
    requires Next(c, s, step).Some?
    ensures Run(c, s, [step] + rest) == Run(c, Next(c, s, step).value, rest)
  {
    assert ([step] + rest)[1..] == rest;
  }

  lemma Done(c: Config, s: Sys)
    ensures Run(c, s, []) == Some(s)
  {}
}
