/** Values shared by the worker, the pool and the step system: statuses, results and how a result is classified. */
module WorkerSpec {
  import opened Bytes
  import opened Codec
  import opened Frame

  /** waitpid statuses of a terminated child. */
  datatype WaitStatus = Signalled(sig: nat) | Exited(code: nat)

  const EXIT_OK := 0
  const EXIT_PROTOCOL_ERROR := 70
  const EXIT_IPC_ERROR := 71
  const EXIT_INTERNAL_ERROR := 72

  /** isolated_status. */
  datatype Status = OkStatus | Exception | Crash | Timeout | ProtocolError | IpcError | InternalError

  /** worker_send_status. */
  datatype SendStatus = Accepted | WorkerBusy | WorkerStopped | SerializeError | SendTimeout | Disconnected | IoError

  predicate Poisoned(status: SendStatus) {
    status in {SendTimeout, Disconnected, IoError}
  }

  /** Result messages; the parts that format a signal or an exit code keep the number. */
  datatype Message =
    | NoMessage | Fixed(text: string) | ChildText(said: Val) | CrashedWith(sig: nat) | ExitedWith(code: nat)

  datatype TaskResult = TaskResult(taskId: nat, args: Val, status: Status, message: Message, signal: nat, exitCode: nat)

  function MakeResult(id: nat, args: Val, status: Status, message: Message): TaskResult {
    TaskResult(id, args, status, message, 0, 0)
  }

  /** make_result_from_wait_status: waitpid() knows better than the transport. */
  function FromWaitStatus(id: nat, args: Val, w: WaitStatus): TaskResult {
    match w
    case Signalled(sig) => TaskResult(id, args, Crash, CrashedWith(sig), sig, 0)
    case Exited(code) =>
      var (status, message) :=
        if code == EXIT_OK then (IpcError, Fixed("worker exited normally before sending response"))
        else if code == EXIT_PROTOCOL_ERROR then (ProtocolError, Fixed("worker exited after request protocol error"))
        else if code == EXIT_IPC_ERROR then (IpcError, Fixed("worker exited after IPC error"))
        else if code == EXIT_INTERNAL_ERROR then (InternalError, Fixed("worker exited after internal error"))
        else (InternalError, ExitedWith(code));
      TaskResult(id, args, status, message, 0, code)
  }

  /** An exit status makes a crash exactly of a signal, keeps the signal or exit code, and is never taken for an
      answer of the target or for a timeout. */
  lemma ExitStatusClassified(id: nat, args: Val, w: WaitStatus)
    ensures var r := FromWaitStatus(id, args, w);
      && r.taskId == id && r.args == args && r.status !in {OkStatus, Exception, Timeout}
      && (r.status.Crash? <==> w.Signalled?)
      && (w.Signalled? ==> r.signal == w.sig)
      && (w.Exited? ==> r.exitCode == w.code && r.signal == 0)
      && (r.status.ProtocolError? <==> w == Exited(70))
      && (r.status.IpcError? <==> w == Exited(0) || w == Exited(71))
      && (w == Exited(72) ==> r.status.InternalError?)
  {}

  /** finish_task_from_response_packet: the result, and whether the worker stays usable. */
  function FinishTask(id: nat, args: Val, p: Packet): (TaskResult, bool) {
    if p.header.taskId != id then
      (MakeResult(id, args, ProtocolError, Fixed("worker response task_id mismatch")), false)
    else if p.header.kind == KIND_OK then
      (MakeResult(id, args, OkStatus, NoMessage), true)
    else if p.header.kind == KIND_EXCEPTION then
      (MakeResult(id, args, Exception, PacketText(p)), true)
    else if p.header.kind == KIND_PROTOCOL_ERROR then
      (MakeResult(id, args, ProtocolError, PacketText(p)), false)
    else
      (MakeResult(id, args, ProtocolError, Fixed("worker returned unexpected packet kind")), false)
  }

  /** A packet with the task's id is ok for kind 2 and an exception for kind 3; everything else is a protocol error. The
      child is kept in the first two cases, and its text is the message. */
  lemma PacketClassified(id: nat, args: Val, p: Packet)
    ensures var r, own := FinishTask(id, args, p).0, p.header.taskId == id;
      && r.taskId == id && r.args == args
      && r.status == (if own && p.header.kind == 2 then OkStatus
                      else if own && p.header.kind == 3 then Exception
                      else ProtocolError)
      && (own && (p.header.kind == 3 || p.header.kind == 5) && p.payload.Text? ==>
            r.message == ChildText(p.payload.text))
    ensures FinishTask(id, args, p).1 <==> p.header.taskId == id && (p.header.kind == 2 || p.header.kind == 3)
  {}

  /** as_text; decoding guarantees that the kinds with text carry text. */
  function PacketText(p: Packet): Message {
    if p.payload.Text? then ChildText(p.payload.text) else NoMessage
  }

  // ---- What a target call can do ----------------------------------------------------------

  datatype Outcome = Returned | Threw(text: Val)

  /** The packet the child answers with. */
  predicate IsReply(sig: Ty, frame: Octets, id: nat, outcome: Outcome) {
    match Receive(sig, frame)
    case Got(p, rest) =>
      rest == [] && p.header.taskId == id &&
      (match outcome
       case Returned => p.header.kind == KIND_OK
       case Threw(text) => p.header.kind == KIND_EXCEPTION && p.payload == Text(text))
    case _ => false
  }

  /** The request that asks for one run of the target. */
  predicate IsRequest(sig: Ty, frame: Octets, id: nat, args: Val) {
    match Receive(sig, frame)
    case Got(p, rest) => rest == [] && p.header.kind == KIND_RUN && p.header.taskId == id && p.payload == Args(args)
    case _ => false
  }

  /** send_run puts a request on the wire. */
  lemma RunFrameIsRequest(sig: Ty, id: U64, args: Val, gap: Octets, tail: Octets)
    requires WellFormed(sig) && HasType(sig, args) && |gap| == 4 && |tail| == 4
    requires FrameOf(sig, KIND_RUN, id, 0, Args(args), gap, tail).Some?
    ensures IsRequest(sig, FrameOf(sig, KIND_RUN, id, 0, Args(args), gap, tail).value, id, args)
  {
    FrameRoundTrip(sig, KIND_RUN, id, 0, Args(args), gap, tail);
  }

  /** send_ok and send_exception put replies on the wire. */
  lemma ReplyFrameIsReply(sig: Ty, id: U64, outcome: Outcome, gap: Octets, tail: Octets)
    requires WellFormed(sig) && |gap| == 4 && |tail| == 4 && (outcome.Threw? ==> HasType(TEXT, outcome.text))
    requires ReplyFrame(sig, id, outcome, gap, tail).Some?
    ensures IsReply(sig, ReplyFrame(sig, id, outcome, gap, tail).value, id, outcome)
  {
    match outcome
    case Returned => FrameRoundTrip(sig, KIND_OK, id, 0, NoPayload, gap, tail);
    case Threw(text) => FrameRoundTrip(sig, KIND_EXCEPTION, id, 0, Text(text), gap, tail);
  }

  function ReplyFrame(sig: Ty, id: U64, outcome: Outcome, gap: Octets, tail: Octets): Option<Octets>
    requires |gap| == 4 && |tail| == 4 && (outcome.Threw? ==> HasType(TEXT, outcome.text))
  {
    match outcome
    case Returned => FrameOf(sig, KIND_OK, id, 0, NoPayload, gap, tail)
    case Threw(text) => FrameOf(sig, KIND_EXCEPTION, id, 0, Text(text), gap, tail)
  }

  /** An honest reply is read as the outcome it was sent for, and the worker stays usable. */
  lemma HonestReply(sig: Ty, out: Octets, id: nat, args: Val, outcome: Outcome)
    requires IsReply(sig, out, id, outcome)
    ensures Receive(sig, out).Got? && Receive(sig, out).rest == []
    ensures FinishTask(id, args, Receive(sig, out).packet) == (ResultOf(id, args, outcome), true)
  {}

  function ResultOf(id: nat, args: Val, outcome: Outcome): TaskResult {
    match outcome
    case Returned => MakeResult(id, args, OkStatus, NoMessage)
    case Threw(text) => MakeResult(id, args, Exception, ChildText(text))
  }

  /** A call that returned is ok, and a call that threw is an exception with its text. */
  lemma OutcomeClassified(id: nat, args: Val, outcome: Outcome)
    ensures var r := ResultOf(id, args, outcome);
      && r.taskId == id && r.args == args
      && (r.status.OkStatus? <==> outcome.Returned?) && (r.status.Exception? <==> outcome.Threw?)
      && (outcome.Threw? ==> r.message == ChildText(outcome.text))
  {}

  /** The results of calling a pure target on the argument tuples in order, with task ids from 1 on. */
  function InProcess(f: Val -> Outcome, calls: seq<Val>): (r: seq<TaskResult>)
    ensures |r| == |calls|
    ensures forall k | 0 <= k < |r| :: r[k].taskId == k + 1 && r[k].args == calls[k]
  {
    seq(|calls|, k requires 0 <= k < |calls| => ResultOf(k + 1, calls[k], f(calls[k])))
  }

  lemma InProcessNext(f: Val -> Outcome, calls: seq<Val>, args: Val)
    ensures InProcess(f, calls + [args]) == InProcess(f, calls) + [ResultOf(|calls| + 1, args, f(args))]
  {}
}
