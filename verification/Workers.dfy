/** One worker slot: a child process, the parent's end of its socket, and at most one task in flight. */
module Workers {
  import opened Bytes
  import opened Codec
  import opened Frame
  import opened WorkerSpec
  import opened Kernels
  import opened Transport
  import opened Weights

  datatype WorkerState = Stopped | Idle | Busy | Broken

  /** The zero of a timeout means that the operation blocks; `task` is absent when targets may run for ever. */
  datatype Timeouts = Timeouts(send: nat, frame: nat, task: Option<nat>)

  datatype Current = Current(id: U64, args: Val, deadline: Option<nat>)

  /** A worker's fields at one moment. */
  datatype Snap = Snap(pid: int, fd: int, state: WorkerState, current: Option<Current>)

  /** Between public operations a worker is stopped and owns nothing, idle and owns a child and a descriptor,
      or busy and owns a task too; it is never broken. `procs` are the live children, `socks` the open descriptors. */
  predicate Lawful(sig: Ty, w: Snap, procs: set<int>, socks: set<int>) {
    match w.state
    case Stopped => w.pid == -1 && w.fd == -1 && w.current.None?
    case Idle => 0 < w.pid && w.pid in procs && 0 <= w.fd && w.fd in socks && w.current.None?
    case Busy =>
      0 < w.pid && w.pid in procs && 0 <= w.fd && w.fd in socks && w.current.Some? && HasType(sig, w.current.value.args)
    case Broken => false
  }

  // ---- The deadline check ------------------------------------------------------------------

  /** The outcome of looking at a task whose deadline has passed. */
  datatype Check = Surfaced | HasExited(w: WaitStatus) | Hung

  predicate HasEvent(rc: PollRc) {
    rc.Ready? && (rc.events.input || rc.events.hup || rc.events.err || rc.events.nval)
  }

  /** Two rounds of looking at the socket and then at the child. */
  function CheckDeadline(s: Sock, p: Proc): Check {
    var (s', polled) := PollingIn(s);
    var (p', waited) := Waiting(p);
    if HasEvent(polled) then Surfaced
    else if waited.Reaped? then HasExited(waited.w)
    else
      var again := PollingIn(s').1;
      var last := Waiting(p').1;
      if HasEvent(again) then Surfaced else if last.Reaped? then HasExited(last.w) else Hung
  }

  function PollAnswer(s: Sock, k: nat): Polled {
    if k < |s.polls| then s.polls[k] else Silent
  }

  function WaitAnswer(p: Proc, k: nat): Waited {
    if k < |p.waits| then p.waits[k] else Running
  }

  /** What a deadline check that saw an event leaves of the answers still to come. */
  function Looked(s: Sock, p: Proc): (Sock, Proc) {
    var (s', polled) := PollingIn(s);
    if HasEvent(polled) then (s', p) else (PollingIn(s').0, Waiting(p).0)
  }

  /** The k-th poll shows nothing: it fails, or nothing is pending and nothing happens. */
  predicate PollBlind(s: Sock, k: nat) {
    match PollAnswer(s, k)
    case PollFails(_) => true
    case Silent => !s.readable
    case Shows(e) => !s.readable && !(e.input || e.hup || e.err || e.nval)
  }

  predicate WaitBlind(p: Proc, k: nat) {
    match WaitAnswer(p, k)
    case WaitFails => true
    case Running => p.status.None?
    case Ends(_) => false
  }

  /** A task is declared hung exactly when both looks at the socket and both looks at the child saw nothing. */
  lemma HungIff(s: Sock, p: Proc)
    ensures CheckDeadline(s, p).Hung? <==> PollBlind(s, 0) && PollBlind(s, 1) && WaitBlind(p, 0) && WaitBlind(p, 1)
  {}

  /** Both times the socket is looked at before the child. */
  lemma LooksInTurn(s: Sock, p: Proc)
    ensures CheckDeadline(s, p).Surfaced? <==> !PollBlind(s, 0) || (WaitBlind(p, 0) && !PollBlind(s, 1))
    ensures CheckDeadline(s, p).HasExited? <==>
      PollBlind(s, 0) && (!WaitBlind(p, 0) || (PollBlind(s, 1) && !WaitBlind(p, 1)))
    ensures CheckDeadline(s, p).HasExited? ==> CanEnd(p, CheckDeadline(s, p).w)
  {
    LooksAtChild(p);
    LooksAtChild(Waiting(p).0);
  }

  /** With input pending, or an ended child, only failing system calls can make it look hung. */
  lemma ReadyIsNotHung(s: Sock, p: Proc)
    requires s.readable || p.status.Some?
    ensures CheckDeadline(s, p).Hung? ==>
      (s.readable ==> PollAnswer(s, 0).PollFails? && PollAnswer(s, 1).PollFails?)
      && (p.status.Some? ==> WaitAnswer(p, 0).WaitFails? && WaitAnswer(p, 1).WaitFails?)
  {
    HungIff(s, p);
  }

  // ---- Results -----------------------------------------------------------------------------

  /** The child has ended this way, or its script says that it will. */
  predicate CanEnd(p: Proc, w: WaitStatus) {
    p.status == Some(w) || (p.status.None? && Ends(w) in p.waits)
  }

  /** The same child, of whose answers some have been used up. */
  predicate SameChild(p: Proc, p': Proc) {
    p'.status == p.status && forall x | x in p'.waits :: x in p.waits
  }

  lemma LooksAtChild(p: Proc)
    ensures Waiting(p).1.Reaped? ==> CanEnd(p, Waiting(p).1.w)
    ensures SameChild(p, Waiting(p).0) && SameChild(p, p)
  {
    assert p.waits != [] ==> p.waits[0] in p.waits;
  }

  /** The result says how the child ended. */
  ghost predicate SaysHowItEnded(task: Current, p: Proc, r: TaskResult) {
    exists w :: CanEnd(p, w) && r == FromWaitStatus(task.id, task.args, w)
  }

  lemma SaidEarlier(task: Current, p: Proc, p': Proc, r: TaskResult)
    requires SameChild(p, p') && SaysHowItEnded(task, p', r)
    ensures SaysHowItEnded(task, p, r)
  {}

  function TimeoutResult(task: Current): TaskResult {
    MakeResult(task.id, task.args, Timeout, Fixed("worker task timed out"))
  }

  /** The status of a send that failed inside the frame. */
  function SendFailure(io: IoResult): SendStatus {
    match io
    case IoTimeout => SendTimeout
    case IoEof => Disconnected
    case IoDisconnected(_) => Disconnected
    case _ => IoError
  }

  /** A send that fails inside the frame says why. */
  ghost predicate FailedFor(status: SendStatus, s: Sock, timed: bool, late: bool) {
    exists io :: Blamed(s, io, timed, true, late) &&
      match status
      case SendTimeout => io.IoTimeout?
      case Disconnected => io.IoEof? || io.IoDisconnected?
      case IoError => io.IoSystemError?
      case _ => false
  }

  lemma FailureLabel(s: Sock, io: IoResult, timed: bool, late: bool, since: bool)
    requires Blamed(s, io, timed, true, late) && !io.IoOk? && (late ==> since)
    ensures FailedFor(SendFailure(io), s, timed, since)
  {
    hide Blamed;
    BlamedSince(s, io, timed, true, late, since);
  }

  /** The result when neither a packet nor an exit status came. */
  function NoResponse(task: Current, status: Status): TaskResult {
    MakeResult(task.id, task.args, status, Fixed("no response could be read"))
  }

  /** After a failed read: an exit that is there at once is the result, then one that comes in time, then the failure.
      */
  ghost predicate GaveUp(task: Current, p: Proc, status: Status, r: TaskResult, late: bool) {
    var seen := Waiting(p).1;
    if seen.Reaped? then r == FromWaitStatus(task.id, task.args, seen.w)
    else SaysHowItEnded(task, p, r) || (r == NoResponse(task, status) && late)
  }

  /** The result that a reading which brought no packet ends in. A frame that did not come in time explains itself. */
  ghost predicate Unanswered(task: Current, p: Proc, reception: Reception, r: TaskResult, late: bool) {
    match reception
    case Arrived(_) => false
    case Malformed => GaveUp(task, p, ProtocolError, r, late)
    case Failed(io) => if io.IoTimeout? then r == NoResponse(task, IpcError) else GaveUp(task, p, IpcError, r, late)
  }

  /** The result of reading a response from a socket in which `unread` stands. */
  ghost predicate Answered(sig: Ty, task: Current, unread: Octets, p: Proc, reception: Reception, r: TaskResult,
                           late: bool) {
    var front := Frame.Receive(sig, unread);
    if reception.Arrived? then
      front.Got? && reception.packet == front.packet && r == FinishTask(task.id, task.args, front.packet).0
    else
      (reception.Malformed? ==> front.Bad?) && Unanswered(task, p, reception, r, late)
  }

  /** Over a willing socket what stands at the front is what is read, and a failure has its reason. */
  ghost predicate Heard(sig: Ty, s: Sock, ticks: seq<nat>, timeout: nat, reception: Reception, late: bool) {
    && (reception.Failed? ==> Blamed(s, reception.io, timeout != 0, false, late))
    && match Frame.Receive(sig, s.unread)
       case Got(p, rest) =>
         |rest| <= |s.unread| && (Willing(s, ticks, |s.unread| - |rest|, timeout, false) ==> reception == Arrived(p))
       case Bad => Willing(s, ticks, |s.unread|, timeout, false) ==> reception == Malformed
       case Incomplete => true
  }

  /** One look at the child, and then the socket. */
  ghost predicate Replied(sig: Ty, task: Current, s: Sock, p: Proc, ticks: seq<nat>, timeout: nat,
                          reception: Option<Reception>, r: TaskResult, late: bool) {
    var (p', waited) := Waiting(p);
    if waited.Reaped? then r == FromWaitStatus(task.id, task.args, waited.w)
    else
      && reception.Some? && Answered(sig, task, s.unread, p', reception.value, r, late)
      && Heard(sig, s, ticks, timeout, reception.value, late)
  }

  /** The whole of receive(): the deadline check at time `at`, one look at the child, and then the socket. */
  ghost predicate Receipt(sig: Ty, v: Sight, ticks: seq<nat>, timeout: nat, at: nat, reception: Option<Reception>,
                          r: TaskResult, late: bool) {
    && v.snap.current.Some? && v.sock.Some? && v.proc.Some?
    && var task, s, p := v.snap.current.value, v.sock.value, v.proc.value;
    if Due(v, at) && !CheckDeadline(s, p).Surfaced? then Expires(v, at, r)
    else
      var (s', p') := if Due(v, at) then Looked(s, p) else (s, p);
      Replied(sig, task, s', p', ticks, timeout, reception, r, late)
  }

  /** What a deadline check looks at: a slot, its socket and its child. */
  datatype Sight = Sight(snap: Snap, sock: Option<Sock>, proc: Option<Proc>)

  predicate Overdue(task: Current, now: nat) {
    task.deadline.Some? && now >= task.deadline.value
  }

  /** At time `at` the task in this slot is overdue. */
  predicate Due(v: Sight, at: nat) {
    v.snap.state.Busy? && v.snap.current.Some? && Overdue(v.snap.current.value, at)
  }

  /** It is overdue, two looks at its socket and child see its child's end or nothing, and this is its result. */
  predicate Expires(v: Sight, at: nat, r: TaskResult) {
    && Due(v, at) && v.sock.Some? && v.proc.Some?
    && match CheckDeadline(v.sock.value, v.proc.value)
       case Surfaced => false
       case HasExited(x) => r == FromWaitStatus(v.snap.current.value.id, v.snap.current.value.args, x)
       case Hung => r == TimeoutResult(v.snap.current.value)
  }

  /** It is not overdue, or its socket shows an event. */
  predicate PassedOver(v: Sight, at: nat) {
    Due(v, at) ==> v.sock.Some? && v.proc.Some? && CheckDeadline(v.sock.value, v.proc.value).Surfaced?
  }

  /** What a deadline check at this time leaves of a slot that it passes over. */
  function AfterLook(v: Sight, at: nat): Sight {
    if Due(v, at) && v.sock.Some? && v.proc.Some? then
      var (s, p) := Looked(v.sock.value, v.proc.value);
      v.(sock := Some(s), proc := Some(p))
    else v
  }

  /** It is overdue, and two looks at its socket and its child saw nothing. */
  predicate Hangs(v: Sight, at: nat) {
    Due(v, at) && v.sock.Some? && v.proc.Some? && CheckDeadline(v.sock.value, v.proc.value).Hung?
  }

  /** A timeout, if it is one, is the result of a task that was overdue and hanging at some moment in between. */
  ghost predicate FairTimeout(v: Sight, since: nat, now: nat, r: TaskResult) {
    r.status.Timeout? ==>
      v.snap.current.Some? && r == TimeoutResult(v.snap.current.value)
      && exists at :: since <= at <= now && Hangs(v, at)
  }

  lemma ExpiryIsFair(v: Sight, at: nat, r: TaskResult, since: nat, now: nat)
    requires Expires(v, at, r) && since <= at <= now
    ensures FairTimeout(v, since, now, r)
  {
    hide CheckDeadline;
    assert r.status.Timeout? ==> Hangs(v, at);
  }

  lemma ExpirySays(v: Sight, at: nat, r: TaskResult)
    requires Expires(v, at, r)
    ensures r == TimeoutResult(v.snap.current.value) || SaysHowItEnded(v.snap.current.value, v.proc.value, r)
  {
    hide PollingIn, FromWaitStatus, Waiting;
    var p := v.proc.value;
    LooksAtChild(p);
    LooksAtChild(Waiting(p).0);
  }

  // ---- What receive() reports ----------------------------------------------------------------

  /** The slot is busy and its task has time left at `at`. */
  predicate HasTime(v: Sight, at: nat) {
    && v.snap.state.Busy? && v.snap.current.Some? && v.sock.Some? && v.proc.Some?
    && (v.snap.current.value.deadline.Some? ==> at < v.snap.current.value.deadline.value)
  }

  /** A reply that stands in a willing socket of a child that has not ended is the result. */
  lemma ReplyReported(sig: Ty, v: Sight, ticks: seq<nat>, timeout: nat, at: nat, reception: Option<Reception>,
                      r: TaskResult, late: bool, p: Packet, rest: Octets)
    requires Receipt(sig, v, ticks, timeout, at, reception, r, late) && HasTime(v, at)
    requires !Waiting(v.proc.value).1.Reaped? && Frame.Receive(sig, v.sock.value.unread) == Got(p, rest)
    requires |rest| <= |v.sock.value.unread|
    requires Willing(v.sock.value, ticks, |v.sock.value.unread| - |rest|, timeout, false)
    requires p.header.taskId == v.snap.current.value.id
    ensures var task := v.snap.current.value;
      && (p.header.kind == 2 ==> r == TaskResult(task.id, task.args, OkStatus, NoMessage, 0, 0))
      && (p.header.kind == 3 && p.payload.Text? ==>
            r == TaskResult(task.id, task.args, Exception, ChildText(p.payload.text), 0, 0))
  {
    hide Willing, Frame.Receive, CheckDeadline, Unanswered, Waiting, FromWaitStatus, Blamed;
  }

  /** A child whose end shows at the first look is reported by its exit status, whatever stands in the socket. */
  lemma EndReported(sig: Ty, v: Sight, ticks: seq<nat>, timeout: nat, at: nat, reception: Option<Reception>,
                    r: TaskResult, late: bool)
    requires Receipt(sig, v, ticks, timeout, at, reception, r, late) && HasTime(v, at)
    ensures var (task, first) := (v.snap.current.value, Waiting(v.proc.value).1);
      && (first.Reaped? && first.w.Signalled? ==>
            r == TaskResult(task.id, task.args, Crash, CrashedWith(first.w.sig), first.w.sig, 0))
      && (first.Reaped? && first.w.Exited? ==>
            && r.taskId == task.id && r.args == task.args && r.exitCode == first.w.code
            && r.status in {ProtocolError, IpcError, InternalError} && (r.exitCode == 70 <==> r.status.ProtocolError?))
  {
    hide CheckDeadline, Answered, Heard, Waiting;
  }

  /** A task past its deadline whose socket and child show nothing has timed out. */
  lemma HangReported(sig: Ty, v: Sight, ticks: seq<nat>, timeout: nat, at: nat, reception: Option<Reception>,
                     r: TaskResult, late: bool, deadline: nat)
    requires Receipt(sig, v, ticks, timeout, at, reception, r, late) && v.snap.state.Busy?
    requires v.snap.current.value.deadline == Some(deadline) && at >= deadline
    requires var (s, p) := (v.sock.value, v.proc.value);
      PollBlind(s, 0) && PollBlind(s, 1) && WaitBlind(p, 0) && WaitBlind(p, 1)
    ensures var task := v.snap.current.value;
      r == TaskResult(task.id, task.args, Timeout, Fixed("worker task timed out"), 0, 0)
  {
    hide CheckDeadline, Replied, Looked, PollBlind, WaitBlind;
    HungIff(v.sock.value, v.proc.value);
  }

  /** Malformed bytes from a child that does not end are a protocol error. */
  lemma MalformedReported(sig: Ty, v: Sight, ticks: seq<nat>, timeout: nat, at: nat, reception: Option<Reception>,
                          r: TaskResult, late: bool)
    requires Receipt(sig, v, ticks, timeout, at, reception, r, late) && HasTime(v, at)
    requires v.proc.value.status.None? && forall w :: Ends(w) !in v.proc.value.waits
    requires Frame.Receive(sig, v.sock.value.unread).Bad?
    requires Willing(v.sock.value, ticks, |v.sock.value.unread|, timeout, false)
    ensures r.status.ProtocolError?
  {
    hide Willing, Frame.Receive, CheckDeadline, FromWaitStatus, Blamed;
    LooksAtChild(v.proc.value);
    LooksAtChild(Waiting(v.proc.value).0);
  }

  lemma NoTimeout(v: Sight, since: nat, now: nat, r: TaskResult)
    requires !r.status.Timeout?
    ensures FairTimeout(v, since, now, r)
  {}

  class Worker {
    const os: Kernel
    const sig: Ty
    const timeouts: Timeouts
    const pad: Padding
    var pid: int
    var fd: int
    var state: WorkerState
    var current: Option<Current>

    constructor (os: Kernel, sig: Ty, timeouts: Timeouts, pad: Padding)
      requires WellFormed(sig) && pad.Valid() && os.Reckoned()
      ensures Valid() && Snapshot() == Snap(-1, -1, Stopped, None) && this.os == os && this.sig == sig
        && this.pad == pad
    {
      this.os, this.sig, this.timeouts, this.pad := os, sig, timeouts, pad;
      pid, fd, state, current := -1, -1, Stopped, None;
    }

    /** What it owns exists: an unreaped child, an open descriptor. */
    ghost predicate Owned()
      reads this, os`procs, os`socks, os`log
    {
      && WellFormed(sig) && pad.Valid() && os.Reckoned()
      && (pid == -1 || (pid > 0 && pid in os.procs)) && (fd == -1 || (fd >= 0 && fd in os.socks))
    }

    ghost function Snapshot(): Snap
      reads this
    {
      Snap(pid, fd, state, current)
    }

    /** The slot with its socket and its child, out of these. */
    ghost function Sighted(procs: map<int, Proc>, socks: map<int, Sock>): Sight
      reads this
    {
      Sight(Snapshot(), if fd in socks then Some(socks[fd]) else None, if pid in procs then Some(procs[pid]) else None)
    }

    ghost predicate Valid()
      reads this, os`procs, os`socks, os`log
    {
      WellFormed(sig) && pad.Valid() && os.Reckoned() && Lawful(sig, Snapshot(), os.procs.Keys, os.socks.Keys)
    }

    ghost function Pids(): set<int>
      reads this
    {
      if pid > 0 then {pid} else {}
    }

    ghost function Fds(): set<int>
      reads this
    {
      if fd >= 0 then {fd} else {}
    }

    // ---- Lifecycle --------------------------------------------------------------------------

    method Spawn() returns (ok: bool)
      requires Valid()
      modifies this, os`procs, os`log, os`socks, os`spawns
      ensures Valid()
      ensures old(!state.Stopped?) ==> !ok && os.spawns == old(os.spawns)
      ensures old(state.Stopped?) ==>
        && os.spawns == Tail(old(os.spawns))
        && (ok <==> old(os.spawns) != [] && CanStart(old(os.spawns)[0], old(os.procs), old(os.socks)))
      ensures ok ==>
        && state.Idle? && pid !in old(os.procs) && fd !in old(os.socks)
        && os.procs[pid] == old(os.spawns)[0].value.proc && os.socks[fd] == old(os.spawns)[0].value.sock.(sent := [])
        && os.procs - {pid} == old(os.procs) && os.socks - {fd} == old(os.socks)
        && os.procs.Keys == old(os.procs).Keys + {pid} && os.socks.Keys == old(os.socks).Keys + {fd}
        && pid == old(os.spawns)[0].value.pid && fd == old(os.spawns)[0].value.fd
      ensures !ok ==>
        && os.procs == old(os.procs) && os.socks == old(os.socks)
        && pid == old(pid) && fd == old(fd) && state == old(state) && current == old(current)
    {
      if !state.Stopped? || pid > 0 || fd >= 0 {
        return false;
      }
      var child := os.Spawn();
      if child.None? {
        return false;
      }
      pid, fd := child.value.0, child.value.1;
      current := None;
      state := Idle;
      ok := true;
    }

    method CloseFd()
      requires Owned()
      modifies this`fd, os`socks, os`closed, os`log
      ensures fd == -1 && os.socks == old(os.socks) - old(Fds()) && os.Reckoned()
      ensures os.closed == old(os.closed) + if old(fd) >= 0 then [old(os.socks[fd]).sent] else []
    {
      if fd >= 0 {
        os.Close(fd);
        fd := -1;
      }
    }

    method ResetParentState()
      modifies this
      ensures pid == -1 && fd == -1 && current.None? && state.Stopped?
    {
      pid, fd, current, state := -1, -1, None, Stopped;
    }

    /** The frame that asks the child to end. */
    function StopFrame(): Option<Octets>
      requires pad.Valid()
    {
      FrameOf(sig, KIND_STOP, 0, 0, NoPayload, pad.gap, pad.tail)
    }

    /** A stop frame was sent, or a beginning of it; a willing kernel lets it through. */
    ghost predicate AskedToStop(s: Sock, ticks: seq<nat>, sent: Octets)
      requires pad.Valid()
    {
      exists r :: Sends(s.sent, sent, StopFrame(), r) && (Willing(s, ticks, 32, timeouts.send, true) ==> r.Delivered?)
    }

    /** send_stop: what its outcome is does not matter. */
    method SendStop()
      requires Owned() && fd >= 0
      modifies os`socks, os`now, os`ticks
      ensures Owned() && os.Onward()
      ensures fd in os.socks && os.socks == old(os.socks)[fd := os.socks[fd]]
      ensures AskedToStop(old(os.socks[fd]), old(os.ticks), os.socks[fd].sent)
    {
      hide Kernel.Reckoned, FrameOf, Sends, WellFormed, Willing, Sum;
      FrameBuildableIff(sig, KIND_STOP, 0, 0, NoPayload, pad.gap, pad.tail);
      var packets := new PacketManager(os, fd, sig);
      var sent := packets.Send(KIND_STOP, 0, 0, NoPayload, timeouts.send, pad, 0);
      os.StillReckoned(fd);
    }

    /** The child was looked at again and again: `looks` times, and as often as the clock left time for, or until a
        look failed. */
    ghost predicate GivenTime(was: Proc, now: Proc, looks: nat, ticks: seq<nat>, time: nat) {
      && Unended(was, now, looks)
      && (looks + Sum(ticks) >= time || (0 < looks <= |was.waits| && was.waits[looks - 1].WaitFails?))
    }

    /** The child gets some time to end by itself. */
    method AwaitEnd()
      requires Owned() && pid > 0
      modifies this`pid, os`procs, os`log, os`now, os`ticks
      ensures Owned() && os.Onward() && (pid == old(pid) || pid == -1)
      ensures os.procs - {old(pid)} == old(os.procs) - {old(pid)}
      ensures pid == -1 ==> os.procs == old(os.procs) - {old(pid)}
      ensures pid == old(pid) ==>
        exists looks: nat :: GivenTime(old(os.procs[pid]), os.procs[pid], looks, old(os.ticks), timeouts.frame)
    {
      hide Kernel.Reckoned, WellFormed, Sum, Waiting, Unended;
      ghost var was, looks := os.procs[pid], 0;
      NotLooked(was);
      var t := os.Now();
      ghost var start, ticks := t, os.ticks;
      var deadline := t + timeouts.frame;
      while pid > 0 && t < deadline
        invariant t == os.now && Owned() && (pid == old(pid) || pid == -1)
        invariant os.now + Sum(os.ticks) == start + Sum(ticks) + looks && os.now >= start
        invariant os.procs - {old(pid)} == old(os.procs) - {old(pid)}
        invariant pid == -1 ==> os.procs == old(os.procs) - {old(pid)}
        invariant pid == old(pid) ==> Unended(was, os.procs[pid], looks)
        invariant Sum(os.ticks) <= Sum(ticks)
        decreases deadline - t
      {
        if pid == old(pid) {
          OneLook(was, os.procs[pid], looks);
        }
        var rc := os.WaitNoHang(pid);
        looks := looks + 1;
        match rc {
          case Reaped(_) =>
            pid := -1;
            break;
          case WaitError =>
            break;
          case NotYet =>
        }
        os.SleepMillisecond();
        t := os.Now();
      }
      assert pid == old(pid) ==> GivenTime(was, os.procs[pid], looks, old(os.ticks), timeouts.frame);
    }

    /** Asks an idle child to stop and gives it some time to do so. */
    method StopGracefully()
      requires Owned() && pid > 0 && fd >= 0
      modifies this`pid, os`procs, os`log, os`socks, os`now, os`ticks
      ensures Owned() && os.Onward() && (pid == old(pid) || pid == -1)
      ensures os.procs - {old(pid)} == old(os.procs) - {old(pid)}
      ensures pid == -1 ==> os.procs == old(os.procs) - {old(pid)}
      ensures pid == old(pid) ==>
        exists looks: nat :: GivenTime(old(os.procs[pid]), os.procs[pid], looks, old(os.ticks), timeouts.frame)
      ensures fd in os.socks && os.socks == old(os.socks)[fd := os.socks[fd]]
      ensures AskedToStop(old(os.socks[fd]), old(os.ticks), os.socks[fd].sent)
    {
      hide Kernel.Reckoned, WellFormed, Sum, AskedToStop, Unended;
      SendStop();
      ghost var ticks := os.ticks;
      AwaitEnd();
      if pid == old(pid) {
        var looks: nat :| GivenTime(old(os.procs[pid]), os.procs[pid], looks, ticks, timeouts.frame);
        assert GivenTime(old(os.procs[pid]), os.procs[pid], looks, old(os.ticks), timeouts.frame);
      }
    }

    /** Afterwards the slot is stopped, and the child it owned is reaped and the descriptor closed, once each; an idle
        child was asked to stop before. */
    method ShutdownChild()
      requires Owned() && (state.Idle? ==> pid > 0 && fd >= 0)
      modifies this, os`procs, os`log, os`socks, os`closed, os`now, os`ticks
      ensures Valid() && state.Stopped? && os.Onward()
      ensures os.procs == old(os.procs) - old(Pids()) && os.socks == old(os.socks) - old(Fds())
      ensures old(fd) >= 0 ==> |os.closed| == |old(os.closed)| + 1 && os.closed[..|old(os.closed)|] == old(os.closed)
      ensures old(fd) < 0 ==> os.closed == old(os.closed)
      ensures old(fd) >= 0 && old(!state.Idle?) ==> os.closed == old(os.closed) + [old(os.socks[fd]).sent]
      ensures old(!state.Idle?) ==> os.now == old(os.now) && os.ticks == old(os.ticks)
      ensures old(state.Idle?) ==> AskedToStop(old(os.socks[fd]), old(os.ticks), os.closed[|old(os.closed)|])
    {
      hide Kernel.Reckoned, WellFormed, HasType, AskedToStop, GivenTime, Sum;
      if state.Idle? && pid > 0 && fd >= 0 {
        StopGracefully();
      }
      CloseFd();
      if pid > 0 {
        os.Kill(pid);
        os.Wait(pid);
      }
      ResetParentState();
    }

    /** The slot gave up its child and its descriptor. */
    twostate predicate Released()
      reads this, os
    {
      state.Stopped? && os.procs == old(os.procs) - old(Pids()) && os.socks == old(os.socks) - old(Fds())
    }

    /** A worker in error gives up its child without asking it to stop. */
    method Discard()
      requires Owned() && !state.Stopped?
      modifies this, os`procs, os`log, os`socks, os`closed, os`now, os`ticks
      ensures Valid() && Released() && os.now == old(os.now) && os.ticks == old(os.ticks)
      ensures os.closed == old(os.closed) + if old(fd) >= 0 then [old(os.socks[fd]).sent] else []
    {
      hide Kernel.Reckoned, WellFormed, HasType;
      state := Broken;
      ShutdownChild();
    }

    method Stop()
      requires Valid()
      modifies this, os`procs, os`log, os`socks, os`closed, os`now, os`ticks
      ensures Valid() && state.Stopped?
      ensures os.procs == old(os.procs) - old(Pids()) && os.socks == old(os.socks) - old(Fds())
    {
      ShutdownChild();
    }

    // ---- Delivery ---------------------------------------------------------------------------

    /** The frame that asks the child for one execution. */
    function Request(id: U64, args: Val): Option<Octets>
      requires HasType(sig, args) && pad.Valid()
    {
      FrameOf(sig, KIND_RUN, id, 0, Args(args), pad.gap, pad.tail)
    }

    /** The deadline of a task accepted at this time. */
    function DeadlineFrom(now: nat): Option<nat> {
      if timeouts.task.Some? then Some(now + timeouts.task.value) else None
    }

    /** These arguments fit into a packet, and the socket lets it through. */
    predicate Welcome(args: Val, s: Sock, ticks: seq<nat>)
      requires HasType(sig, args)
    {
      Weight(sig, args) <= 0xffff_ffff && Willing(s, ticks, 32 + Weight(sig, args), timeouts.send, true)
    }

    /** send_run. */
    method SendRun(id: U64, args: Val) returns (delivery: Delivery)
      requires Valid() && state.Idle? && HasType(sig, args)
      modifies os`socks, os`now, os`ticks
      ensures Valid() && os.Ticked()
      ensures fd in os.socks && os.socks == old(os.socks)[fd := os.socks[fd]]
      ensures os.socks[fd].unread == old(os.socks[fd]).unread
      ensures Sends(old(os.socks[fd]).sent, os.socks[fd].sent, Request(id, args), delivery)
      ensures delivery.Unbuildable? ==> os.socks == old(os.socks)
      ensures delivery.Torn? ==>
        !delivery.io.IoOk?
          && Blamed(old(os.socks[fd]), delivery.io, timeouts.send != 0, true, os.now >= old(os.now) + timeouts.send)
      ensures delivery.Unbuildable? <==> Weight(sig, args) > 0xffff_ffff
      ensures Request(id, args).Some? <==> Weight(sig, args) <= 0xffff_ffff
      ensures Welcome(args, old(os.socks[fd]), old(os.ticks)) ==> delivery.Delivered?
    {
      hide Kernel.Reckoned, FrameOf, HasType, WellFormed, Willing, Weight, Sum, Why, Later, Wrote;
      FrameBuildableIff(sig, KIND_RUN, id, 0, Args(args), pad.gap, pad.tail);
      var packets := new PacketManager(os, fd, sig);
      delivery := packets.Send(KIND_RUN, id, 0, Args(args), timeouts.send, pad, 0);
      os.StillReckoned(fd);
    }

    /** Delivers one task to an idle child; a willing kernel lets it through. When it is accepted, the child was given
        exactly one request for it. A send that fails inside the frame discards the child, which was given a part of
        the frame that it can only wait on. In every other case nothing was written. */
    method Send(id: U64, args: Val) returns (status: SendStatus)
      requires Valid() && HasType(sig, args)
      modifies this, os`procs, os`log, os`socks, os`closed, os`now, os`ticks
      ensures Valid() && os.Onward()
      ensures status.WorkerStopped? <==> old(state.Stopped?)
      ensures status.WorkerBusy? <==> old(state.Busy?)
      ensures status.SerializeError? <==> old(state.Idle?) && Weight(sig, args) > 0xffff_ffff
      ensures status in {WorkerStopped, WorkerBusy, SerializeError} ==>
        && os.procs == old(os.procs) && os.socks == old(os.socks) && os.closed == old(os.closed)
        && pid == old(pid) && fd == old(fd) && state == old(state) && current == old(current)
      ensures status.Accepted? ==>
        && Request(id, args).Some? && os.closed == old(os.closed)
        && state.Busy? && pid == old(pid) && fd == old(fd) && current.value.id == id && current.value.args == args
        && os.procs == old(os.procs) && os.socks == old(os.socks)[fd := os.socks[fd]]
        && os.socks[fd].unread == old(os.socks[fd]).unread
        && os.socks[fd].sent == old(os.socks[fd]).sent + Request(id, args).value
        && IsRequest(sig, Request(id, args).value, id, args)
        && current.value.deadline == DeadlineFrom(os.now)
      ensures status.Accepted? ==>
        if timeouts.task.None? then current.value.deadline.None?
        else
          && current.value.deadline.Some?
          && old(os.now) <= current.value.deadline.value - timeouts.task.value <= old(os.Horizon())
      ensures old(state.Idle?) && Welcome(args, old(os.socks[fd]), old(os.ticks)) ==> status.Accepted?
      ensures Poisoned(status) ==>
        && state.Stopped? && os.procs == old(os.procs) - old(Pids()) && os.socks == old(os.socks) - old(Fds())
        && Abandoned(old(os.closed), os.closed, old(os.socks[fd]).sent)
        && FailedFor(status, old(os.socks[fd]), timeouts.send != 0, os.now >= old(os.now) + timeouts.send)
    {
      hide Kernel.Reckoned, Frame.Receive, FrameOf, HasType, WellFormed, IsRequest, MakeFrame, Abandoned, Willing,
        Weight, Sum, Blamed, FailedFor;
      if state.Stopped? || pid <= 0 || fd < 0 {
        return WorkerStopped;
      }
      if !state.Idle? {
        return WorkerBusy;
      }
      ghost var before := os.socks[fd].sent;
      var delivery := SendRun(id, args);
      match delivery {
        case Torn(io) =>
          FailureLabel(old(os.socks[fd]), io, timeouts.send != 0, os.now >= old(os.now) + timeouts.send,
                       os.now >= old(os.now) + timeouts.send);
          ghost var closed, after := os.closed, os.socks[fd].sent;
          Discard();
          assert os.closed == closed + [after];
          PartOfRequest(id, args, before, after, closed, os.closed);
          return SendFailure(io);
        case Unbuildable =>
          return SerializeError;
        case Delivered =>
      }
      RunFrameIsRequest(sig, id, args, pad.gap, pad.tail);
      assert Request(id, args).value[..|Request(id, args).value|] == Request(id, args).value;
      var deadline: Option<nat> := None;
      if timeouts.task.Some? {
        var t := os.Now();
        deadline := Some(t + timeouts.task.value);
      }
      current := Some(Current(id, args, deadline));
      state := Busy;
      status := Accepted;
    }

    /** One more descriptor was closed, and what its peer was given after `before` is no whole packet. */
    ghost predicate Abandoned(closed: seq<Octets>, closed': seq<Octets>, before: Octets)
    {
      && |closed'| == |closed| + 1 && closed'[..|closed|] == closed
      && before <= closed'[|closed|]
      && Frame.Receive(sig, closed'[|closed|][|before|..]) == Incomplete
    }

    lemma PartOfRequest(id: U64, args: Val, before: Octets, after: Octets, closed: seq<Octets>, closed': seq<Octets>)
      requires WellFormed(sig) && HasType(sig, args) && pad.Valid() && Request(id, args).Some?
      requires Wrote(before, after, Request(id, args).value, false) && closed' == closed + [after]
      ensures Abandoned(closed, closed', before)
    {
      var frame := Request(id, args).value;
      RunFrameIsRequest(sig, id, args, pad.gap, pad.tail);
      var cut := |after| - |before|;
      assert after[|before|..] == frame[..cut];
      PrefixWaits(sig, frame, Frame.Receive(sig, frame).packet, cut);
    }

    // ---- Results ----------------------------------------------------------------------------

    /** The same task is still in flight in the same child, and nothing was moved over its socket. */
    twostate predicate StillBusy()
      reads this, os
    {
      && state.Busy? && current == old(current) && pid == old(pid) && fd == old(fd)
      && os.procs - {pid} == old(os.procs) - {pid} && os.socks - {fd} == old(os.socks) - {fd}
      && fd in os.socks && fd in old(os.socks)
      && os.socks[fd].sent == old(os.socks[fd]).sent && os.socks[fd].unread == old(os.socks[fd]).unread
      && (old(os.socks[fd]).readable ==> os.socks[fd].readable)
    }

    /** A non-blocking look at the child. */
    method TryCollectChildExitResult(task: Current) returns (r: Option<TaskResult>)
      requires Owned()
      modifies this`pid, os`procs, os`log
      ensures Owned()
      ensures old(pid) <= 0 ==> r.None? && pid == old(pid) && os.procs == old(os.procs)
      ensures old(pid) > 0 ==>
        var (p, rc) := Waiting(old(os.procs[pid]));
        if rc.Reaped? then
          r == Some(FromWaitStatus(task.id, task.args, rc.w)) && pid == -1 && os.procs == old(os.procs) - {old(pid)}
        else
          r.None? && pid == old(pid) && os.procs == old(os.procs)[pid := p]
      ensures r.Some? ==> SaysHowItEnded(task, old(os.procs[pid]), r.value)
    {
      if pid <= 0 {
        return None;
      }
      LooksAtChild(os.procs[pid]);
      var rc := os.WaitNoHang(pid);
      r := None;
      if rc.Reaped? {
        pid := -1;
        r := Some(FromWaitStatus(task.id, task.args, rc.w));
      }
    }

    /** Looks at the child every millisecond until it has ended or the time is up. */
    method WaitForChildExitResult(task: Current, waitFor: nat) returns (r: Option<TaskResult>)
      requires Owned() && pid > 0
      modifies this`pid, os`procs, os`log, os`now, os`ticks
      ensures Owned() && os.Onward()
      ensures r.Some? ==>
        SaysHowItEnded(task, old(os.procs[pid]), r.value) && pid == -1 && os.procs == old(os.procs) - {old(pid)}
      ensures r.None? ==>
        && pid == old(pid) && os.procs - {pid} == old(os.procs) - {pid}
        && !Waiting(old(os.procs[pid])).1.Reaped? && os.now >= old(os.now) + waitFor
        && exists looks: nat ::
             looks + Sum(old(os.ticks)) >= waitFor && Unended(old(os.procs[pid]), os.procs[pid], looks)
      ensures var first := Waiting(old(os.procs[pid])).1;
        first.Reaped? ==> r == Some(FromWaitStatus(task.id, task.args, first.w))
    {
      hide Kernel.Reckoned, Waiting, FromWaitStatus, WellFormed, Sum, SaysHowItEnded, SameChild, CanEnd, Unended;
      ghost var was := os.procs[pid];
      FirstLook(was);
      r := TryCollectChildExitResult(task);
      if r.Some? || waitFor == 0 {
        assert r.None? ==> 1 + Sum(os.ticks) >= waitFor && Unended(was, os.procs[pid], 1);
        return;
      }
      var t := os.Now();
      ghost var start, ticks, looks := t, os.ticks, 1;
      var deadline := t + waitFor;
      t := os.Now();
      while t < deadline
        invariant t == os.now && Owned() && r.None? && pid == old(pid) && os.procs - {pid} == old(os.procs) - {pid}
        invariant os.now + Sum(os.ticks) + 1 == start + Sum(ticks) + looks
        invariant Unended(was, os.procs[pid], looks) && SameChild(was, os.procs[pid])
        invariant os.now >= old(os.now) && Sum(os.ticks) <= old(Sum(os.ticks))
        decreases deadline - t
      {
        os.SleepMillisecond();
        ghost var mid := os.procs[pid];
        NextLook(was, mid, looks);
        r := TryCollectChildExitResult(task);
        if r.Some? {
          SaidEarlier(task, was, mid, r.value);
          return;
        }
        looks := looks + 1;
        t := os.Now();
      }
      assert looks + Sum(old(os.ticks)) >= waitFor && Unended(was, os.procs[pid], looks);
    }

    /** A task past its deadline is declared hung, or its child's end is reported, or, when its socket shows an
        event, it is left to receive(). */
    method ExpireIfTimedOut(now: nat) returns (r: Option<TaskResult>)
      requires Valid()
      modifies this, os`procs, os`log, os`socks, os`closed, os`now, os`ticks
      ensures Valid() && os.now == old(os.now) && os.ticks == old(os.ticks)
      ensures if r.None? then os.closed == old(os.closed) else old(os.closed) <= os.closed
      ensures old(!state.Busy?) || !Overdue(old(current.value), now) ==>
        && r.None? && state == old(state) && current == old(current) && pid == old(pid) && fd == old(fd)
        && os.procs == old(os.procs) && os.socks == old(os.socks)
      ensures old(state.Busy?) && Overdue(old(current.value), now) ==>
        var task := old(current.value);
        match CheckDeadline(old(os.socks[fd]), old(os.procs[pid]))
        case Surfaced =>
          && r.None? && StillBusy()
          && (os.socks[fd], os.procs[pid]) == Looked(old(os.socks[fd]), old(os.procs[pid]))
        case HasExited(w) => r == Some(FromWaitStatus(task.id, task.args, w)) && Released()
        case Hung => r == Some(TimeoutResult(task)) && Released()
      ensures var v := old(Sighted(os.procs, os.socks));
        if r.None? then PassedOver(v, now) && Sighted(os.procs, os.socks) == AfterLook(v, now)
        else Expires(v, now, r.value)
    {
      hide Kernel.Reckoned, PollingIn, Waiting, FromWaitStatus, WellFormed, HasType;
      if !state.Busy? || current.None? {
        return None;
      }
      var task := current.value;
      if !Overdue(task, now) {
        return None;
      }
      var polled := os.PollIn(fd);
      if HasEvent(polled) {
        return None;
      }
      r := TryCollectChildExitResult(task);
      if r.Some? {
        Discard();
        return;
      }
      polled := os.PollIn(fd);
      if HasEvent(polled) {
        return None;
      }
      r := TryCollectChildExitResult(task);
      if r.Some? {
        Discard();
        return;
      }
      r := Some(TimeoutResult(task));
      Discard();
    }

    /** An ok or exception packet for the task in flight ends it and keeps the child; any other packet discards it. */
    method FinishTaskFromResponsePacket(p: Packet) returns (r: TaskResult)
      requires Valid() && state.Busy?
      modifies this, os`procs, os`log, os`socks, os`closed, os`now, os`ticks
      ensures Valid() && os.now == old(os.now) && os.ticks == old(os.ticks) && old(os.closed) <= os.closed
      ensures var (result, reusable) := FinishTask(old(current.value).id, old(current.value).args, p);
        && r == result
        && if reusable then
             state.Idle? && pid == old(pid) && fd == old(fd) && os.procs == old(os.procs) && os.socks == old(os.socks)
           else Released()
    {
      hide Kernel.Reckoned, WellFormed, HasType;
      var task := current.value;
      if p.header.taskId != task.id {
        Discard();
        return MakeResult(task.id, task.args, ProtocolError, Fixed("worker response task_id mismatch"));
      }
      if p.header.kind == KIND_OK {
        current := None;
        state := Idle;
        return MakeResult(task.id, task.args, OkStatus, NoMessage);
      }
      if p.header.kind == KIND_EXCEPTION {
        current := None;
        state := Idle;
        return MakeResult(task.id, task.args, Exception, PacketText(p));
      }
      r := MakeResult(task.id, task.args, ProtocolError,
                      if p.header.kind == KIND_PROTOCOL_ERROR then PacketText(p)
                        else Fixed("worker returned unexpected packet kind"));
      Discard();
    }

    /** The worker stays usable exactly when the next packet on its stream is an ok or exception reply to the task. */
    twostate predicate TookReply(r: TaskResult)
      reads this, os
    {
      && old(current.Some?) && fd in old(os.socks) && fd in os.socks
      && pid == old(pid) && fd == old(fd) && os.procs - {pid} == old(os.procs) - {pid}
        && os.socks - {fd} == old(os.socks) - {fd}
      && match Frame.Receive(sig, old(os.socks[fd]).unread)
         case Got(p, rest) => FinishTask(old(current.value).id, old(current.value).args, p) == (r, true)
           && os.socks[fd].unread == rest
         case _ => false
    }

    /** The result for the task in flight. It always carries the task's id and arguments; the slot is idle again or
        stopped; a timeout is reported only for an overdue task whose socket and child showed nothing. `Receipt` says
        which result it is: the deadline check at time `at`, then one look at the child, then the socket. `None` stands
        for the exception thrown when no task is in flight. */
    method Receive() returns (r: Option<TaskResult>, ghost at: nat, ghost reception: Option<Reception>)
      requires Valid()
      modifies this, os`procs, os`log, os`socks, os`closed, os`now, os`ticks
      ensures Valid() && os.Onward() && old(os.closed) <= os.closed
      ensures r.None? <==> old(!state.Busy?)
      ensures r.None? ==> os.procs == old(os.procs) && os.socks == old(os.socks) && state == old(state)
      ensures r.Some? ==>
        && r.value.taskId == old(current.value).id && r.value.args == old(current.value).args
        && ((state.Idle? && TookReply(r.value)) || Released())
      ensures r.Some? ==> FairTimeout(old(Sighted(os.procs, os.socks)), old(os.now), os.now, r.value)
      ensures r.Some? && r.value.status.Crash? ==>
        SaysHowItEnded(old(current.value), old(os.procs[pid]), r.value)
      ensures r.Some? && r.value.status in {OkStatus, Exception} ==> state.Idle?
      ensures r.Some? && state.Stopped? ==>
        || r.value.status in {Timeout, IpcError, ProtocolError}
        || SaysHowItEnded(old(current.value), old(os.procs[pid]), r.value)
      ensures r.Some? ==>
        && old(os.now) <= at <= os.now && at <= old(os.Horizon())
        && Receipt(sig, old(Sighted(os.procs, os.socks)), old(os.ticks), timeouts.frame, at, reception, r.value,
                    os.now >= old(os.now) + timeouts.frame)
    {
      hide Kernel.Reckoned, Frame.Receive, FinishTask, FromWaitStatus, PollingIn, Waiting, CheckDeadline, WellFormed,
        HasType, FairTimeout, Expires, PassedOver, Looked, Replied, SaysHowItEnded, SameChild, Sum;
      r, at, reception := None, 0, None;
      if !state.Busy? || current.None? {
        return;
      }
      ghost var v := Sighted(os.procs, os.socks);
      LooksAgain(v.sock.value, v.proc.value);
      var t := os.Now();
      at := t;
      r := ExpireIfTimedOut(t);
      if r.Some? {
        ExpirySays(v, t, r.value);
        Labels(old(current.value), v.proc.value, r.value);
        ExpiryIsFair(v, t, r.value, old(os.now), os.now);
        return;
      }
      ghost var s, p, since, ticks := os.socks[fd], os.procs[pid], os.now, os.ticks;
      var result, heard := CollectOrRead();
      reception := heard;
      RepliedSince(sig, v.snap.current.value, s, p, ticks, old(os.ticks), timeouts.frame, heard, result,
                   os.now >= since + timeouts.frame, os.now >= old(os.now) + timeouts.frame);
      if SaysHowItEnded(v.snap.current.value, p, result) {
        SaidEarlier(v.snap.current.value, v.proc.value, p, result);
      }
      NoTimeout(v, old(os.now), os.now, result);
      r := Some(result);
    }

    /** Behind the deadline check: an exit that is there, or else the response. */
    method CollectOrRead() returns (r: TaskResult, ghost reception: Option<Reception>)
      requires Valid() && state.Busy?
      modifies this, os`procs, os`log, os`socks, os`closed, os`now, os`ticks
      ensures Valid() && os.Onward() && old(os.closed) <= os.closed
      ensures r.taskId == old(current.value).id && r.args == old(current.value).args
      ensures (state.Idle? && TookReply(r)) || (Released() && r.status !in {OkStatus, Exception})
      ensures !r.status.Timeout?
      ensures r.status.Crash? ==> SaysHowItEnded(old(current.value), old(os.procs[pid]), r)
      ensures state.Stopped? ==>
        r.status in {IpcError, ProtocolError} || SaysHowItEnded(old(current.value), old(os.procs[pid]), r)
      ensures Replied(sig, old(current.value), old(os.socks[fd]), old(os.procs[pid]), old(os.ticks), timeouts.frame,
                      reception, r, os.now >= old(os.now) + timeouts.frame)
    {
      hide Kernel.Reckoned, Frame.Receive, FinishTask, FromWaitStatus, Waiting, WellFormed, HasType, Answered, Heard,
        SaysHowItEnded, SameChild, Sum;
      var task := current.value;
      ghost var p := os.procs[pid];
      LooksAtChild(p);
      reception := None;
      var exited := TryCollectChildExitResult(task);
      if exited.Some? {
        r := exited.value;
        EndedLabels(task, p, r);
        Discard();
        return;
      }
      ghost var mid := os.procs[pid];
      ghost var heard;
      r, heard := ReadResponse();
      reception := Some(heard);
      if SaysHowItEnded(task, mid, r) {
        SaidEarlier(task, p, mid, r);
      }
    }

    /** What the ways to build a result without a reply have in common. */
    lemma Labels(task: Current, p: Proc, r: TaskResult)
      requires r == TimeoutResult(task) || SaysHowItEnded(task, p, r)
      ensures r.taskId == task.id && r.args == task.args && r.status !in {OkStatus, Exception}
      ensures r.status.Timeout? ==> !SaysHowItEnded(task, p, r)
    {}

    lemma EndedLabels(task: Current, p: Proc, r: TaskResult)
      requires SaysHowItEnded(task, p, r)
      ensures r.taskId == task.id && r.args == task.args && r.status !in {OkStatus, Exception, Timeout}
    {}

    /** Reads the reply that is expected on the socket. A packet that arrives decides the result; a failure discards the
        child, and is explained by the child's exit status when there is one in time, unless no frame came in time. */
    method ReadResponse() returns (r: TaskResult, ghost reception: Reception)
      requires Valid() && state.Busy?
      modifies this, os`procs, os`log, os`socks, os`closed, os`now, os`ticks
      ensures Valid() && os.Onward() && old(os.closed) <= os.closed
      ensures r.taskId == old(current.value).id && r.args == old(current.value).args
      ensures (state.Idle? && TookReply(r)) || (Released() && r.status !in {OkStatus, Exception})
      ensures state.Stopped? ==>
        r.status in {IpcError, ProtocolError} || SaysHowItEnded(old(current.value), old(os.procs[pid]), r)
      ensures !r.status.Timeout?
      ensures r.status.Crash? ==> SaysHowItEnded(old(current.value), old(os.procs[pid]), r)
      ensures Answered(sig, old(current.value), old(os.socks[fd]).unread, old(os.procs[pid]), reception, r,
                       os.now >= old(os.now) + timeouts.frame)
      ensures Heard(sig, old(os.socks[fd]), old(os.ticks), timeouts.frame, reception,
                    os.now >= old(os.now) + timeouts.frame)
    {
      hide Kernel.Reckoned, Frame.Receive, FromWaitStatus, FinishTask, PollingIn, Waiting, CheckDeadline, WellFormed,
        HasType, Willing, SaysHowItEnded, Unanswered, Sum, Why, Later;
      var task := current.value;
      var packets := new PacketManager(os, fd, sig);
      ghost var s, before := os.socks[fd], os.socks[fd].unread;
      RestOf(sig, before);
      ghost var began := os.now;
      var answer := packets.ReceivePacket(timeouts.frame, 0);
      os.StillReckoned(fd);
      reception := answer;
      PacketTaken(sig, before, os.socks[fd].unread, reception);
      if answer.Arrived? {
        FinishLabels(task.id, task.args, reception.packet);
        r := FinishTaskFromResponsePacket(answer.packet);
        return;
      }
      ghost var since := os.now;
      if answer.Failed? {
        assert Blamed(s, answer.io, timeouts.frame != 0, false, since >= began + timeouts.frame);
      }
      r := GiveUp(task, answer);
      if answer.Failed? {
        BlamedSince(s, answer.io, timeouts.frame != 0, false, since >= began + timeouts.frame,
                    os.now >= began + timeouts.frame);
      }
      UnansweredSince(task, old(os.procs[pid]), answer, r, os.now >= since + timeouts.frame,
                      os.now >= old(os.now) + timeouts.frame);
    }

    /** No packet arrived: the child is discarded, and its exit status, if there is one in time, is the result. */
    method GiveUp(task: Current, answer: Reception) returns (r: TaskResult)
      requires Valid() && state.Busy? && current == Some(task) && !answer.Arrived?
      modifies this, os`procs, os`log, os`socks, os`closed, os`now, os`ticks
      ensures Valid() && Released() && os.Onward() && old(os.closed) <= os.closed
      ensures r.taskId == task.id && r.args == task.args && r.status !in {OkStatus, Exception, Timeout}
      ensures r.status in {IpcError, ProtocolError} || SaysHowItEnded(task, old(os.procs[pid]), r)
      ensures r.status.Crash? ==> SaysHowItEnded(task, old(os.procs[pid]), r)
      ensures Unanswered(task, old(os.procs[pid]), answer, r, os.now >= old(os.now) + timeouts.frame)
    {
      hide Kernel.Reckoned, FromWaitStatus, Waiting, WellFormed, HasType, SaysHowItEnded, Sum;
      ghost var p := os.procs[pid];
      var exited: Option<TaskResult> := None;
      if answer != Failed(IoTimeout) {
        exited := WaitForChildExitResult(task, timeouts.frame);
      }
      r := NoResponse(task, if answer.Malformed? then ProtocolError else IpcError);
      if exited.Some? {
        EndedLabels(task, p, exited.value);
        r := exited.value;
      }
      Discard();
    }
  }

  lemma UnansweredSince(task: Current, p: Proc, reception: Reception, r: TaskResult, late: bool, since: bool)
    requires Unanswered(task, p, reception, r, late) && (late ==> since)
    ensures Unanswered(task, p, reception, r, since)
  {}

  lemma AnsweredSince(sig: Ty, task: Current, unread: Octets, p: Proc, reception: Reception, r: TaskResult, late: bool,
                      since: bool)
    requires Answered(sig, task, unread, p, reception, r, late) && (late ==> since)
    ensures Answered(sig, task, unread, p, reception, r, since)
  {
    hide Frame.Receive, FinishTask, Waiting, FromWaitStatus, SaysHowItEnded;
  }

  lemma RepliedSince(sig: Ty, task: Current, s: Sock, p: Proc, ticks: seq<nat>, before: seq<nat>, timeout: nat,
                     reception: Option<Reception>, r: TaskResult, late: bool, since: bool)
    requires Replied(sig, task, s, p, ticks, timeout, reception, r, late) && (late ==> since)
      && Sum(ticks) <= Sum(before)
    ensures Replied(sig, task, s, p, before, timeout, reception, r, since)
  {
    hide Frame.Receive, Answered, Heard, FromWaitStatus, Sum, Waiting;
    if !Waiting(p).1.Reaped? {
      AnsweredSince(sig, task, s.unread, Waiting(p).0, reception.value, r, late, since);
      ReadSince(sig, s, ticks, before, timeout, reception.value, late, since);
    }
  }

  lemma ReceiptSince(sig: Ty, v: Sight, ticks: seq<nat>, before: seq<nat>, timeout: nat, at: nat,
                     reception: Option<Reception>, r: TaskResult, late: bool, since: bool)
    requires Receipt(sig, v, ticks, timeout, at, reception, r, late) && (late ==> since) && Sum(ticks) <= Sum(before)
    ensures Receipt(sig, v, before, timeout, at, reception, r, since)
  {
    hide Replied, CheckDeadline, Looked, Expires, Sum, Due;
    var s, p := v.sock.value, v.proc.value;
    if !(Due(v, at) && !CheckDeadline(s, p).Surfaced?) {
      var (s', p') := if Due(v, at) then Looked(s, p) else (s, p);
      RepliedSince(sig, v.snap.current.value, s', p', ticks, before, timeout, reception, r, late, since);
    }
  }

  /** A first look and another one show no end of the child. */
  predicate Unended(was: Proc, now: Proc, looks: nat) {
    now == was.(waits := After(was.waits, looks))
  }

  lemma NotLooked(p: Proc)
    ensures Unended(p, p, 0)
  {
    AfterTail(p.waits, 0);
  }

  lemma OneLook(was: Proc, p: Proc, looks: nat)
    requires Unended(was, p, looks)
    ensures !Waiting(p).1.Reaped? ==> Unended(was, Waiting(p).0, looks + 1)
    ensures Waiting(p).1.WaitError? ==> looks < |was.waits| && was.waits[looks].WaitFails?
  {
    AfterTail(was.waits, looks);
  }

  lemma FirstLook(p: Proc)
    ensures !Waiting(p).1.Reaped? ==> Unended(p, Waiting(p).0, 1)
    ensures SameChild(p, p) && SameChild(p, Waiting(p).0)
  {
    LooksAtChild(p);
    AfterTail(p.waits, 0);
  }

  lemma NextLook(was: Proc, p: Proc, looks: nat)
    requires Unended(was, p, looks) && SameChild(was, p)
    ensures Unended(was, Waiting(p).0, looks + 1) && SameChild(was, Waiting(p).0)
  {
    LooksAtChild(p);
    AfterTail(was.waits, looks);
  }

  lemma LooksAgain(s: Sock, p: Proc)
    ensures SameChild(p, p) && SameChild(p, Looked(s, p).1) && Looked(s, p).0.unread == s.unread
  {
    LooksAtChild(p);
  }

  lemma RestOf(sig: Ty, s: Octets)
    ensures Frame.Receive(sig, s).Got? ==> |Frame.Receive(sig, s).rest| <= |s|
  {
    hide Frame.Receive;
    if Frame.Receive(sig, s).Got? {
      FrameLength(sig, s);
    }
  }

  /** Fewer ticks to come make a stream no less willing. */
  lemma ReadSince(sig: Ty, s: Sock, ticks: seq<nat>, before: seq<nat>, timeout: nat, reception: Reception, late: bool,
                  since: bool)
    requires Heard(sig, s, ticks, timeout, reception, late) && (late ==> since) && Sum(ticks) <= Sum(before)
    ensures Heard(sig, s, before, timeout, reception, since)
  {
    hide Frame.Receive, Lets, Blamed;
    if reception.Failed? {
      BlamedSince(s, reception.io, timeout != 0, false, late, since);
    }
  }

  lemma FinishLabels(id: nat, args: Val, p: Packet)
    ensures var (r, reusable) := FinishTask(id, args, p);
      && r.taskId == id && r.args == args && (r.status.OkStatus? || r.status.Exception? || r.status.ProtocolError?)
      && (reusable <==> r.status.OkStatus? || r.status.Exception?)
  {
    hide PacketText;
  }
}
