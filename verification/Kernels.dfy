/** The operating system as the parent process meets it: child processes, stream sockets, time. What it will
    answer is written down beforehand in finite scripts; a statement about every kernel is a statement about
    every sequence of answers. */
module Kernels {
  import opened Bytes
  import opened Codec
  import opened WorkerSpec

  datatype Errno = Interrupted | WouldBlock | PeerGone(code: nat) | Fault(code: nat)

  /** One send() or read(): at most `n` bytes move, or it fails. */
  datatype Moved = Moves(n: nat) | MoveFails(errno: Errno)

  datatype Revents = Revents(input: bool, output: bool, hup: bool, err: bool, nval: bool)

  /** One poll() of a descriptor: nothing new happens until the timeout, something does, or the call fails. */
  datatype Polled = Silent | Shows(events: Revents) | PollFails(errno: Errno)

  /** One waitpid(WNOHANG) of a child that had not ended before. */
  datatype Waited = Running | Ends(w: WaitStatus) | WaitFails

  /** The parent's end of a socket pair. `sent` is everything the peer was given, `unread` everything it writes
      before it closes its end and that has not been read, `readable` whether input or a hang-up is pending. */
  datatype Sock = Sock(sent: Octets, unread: Octets, readable: bool, moves: seq<Moved>, polls: seq<Polled>)

  /** A child that has not been reaped; `status` once it has ended. */
  datatype Proc = Proc(status: Option<WaitStatus>, waits: seq<Waited>)

  datatype Forked = Forked(pid: int, fd: int, proc: Proc, sock: Sock)

  /** One poll() of several descriptors: those that show an event, or a failure. */
  datatype Round = Round(shown: set<int>) | RoundFails(errno: Errno)

  datatype RoundRc = Seen(fds: seq<int>) | RoundError(errno: Errno)
  datatype MoveRc = Count(n: nat) | MoveError(errno: Errno)
  datatype ReadRc = Chunk(data: Octets) | ReadError(errno: Errno)
  datatype PollRc = TimedOut | Ready(events: Revents) | PollError(errno: Errno)
  datatype WaitRc = NotYet | Reaped(w: WaitStatus) | WaitError

  const NO_EVENTS := Revents(false, false, false, false, false)

  function Tail<T>(s: seq<T>): seq<T> {
    if s == [] then [] else s[1..]
  }

  /** What is left of a script after `k` answers. */
  function After<T>(s: seq<T>, k: nat): seq<T> {
    if k <= |s| then s[k..] else []
  }

  lemma AfterAfter<T>(s: seq<T>, j: nat, k: nat)
    ensures After(After(s, j), k) == After(s, j + k)
  {}

  lemma AfterTail<T>(s: seq<T>, k: nat)
    ensures Tail(After(s, k)) == After(s, k + 1) && After(s, 0) == s
    ensures After(s, k) == [] <==> k >= |s|
    ensures k < |s| ==> After(s, k)[0] == s[k]
  {}

  function Least(a: nat, b: nat): nat {
    if a < b then a else b
  }

  function Sum(ticks: seq<nat>): nat {
    if ticks == [] then 0 else ticks[0] + Sum(ticks[1..])
  }

  /** send(): a script that has run out means that the peer is gone. */
  function Sending(s: Sock, data: Octets): (r: (Sock, MoveRc))
    ensures r.0.unread == s.unread && r.0.polls == s.polls
    ensures |r.0.moves| < |s.moves| || r.1 == MoveError(PeerGone(0))
    ensures r.0.sent == s.sent + if r.1.Count? then (if r.1.n <= |data| then data[..r.1.n] else data) else []
    ensures r.1.Count? ==> r.1.n <= |data|
  {
    if s.moves == [] then (s, MoveError(PeerGone(0)))
    else
      var s' := s.(moves := s.moves[1..]);
      match s.moves[0]
      case MoveFails(errno) => (s', MoveError(errno))
      case Moves(n) => var k := Least(n, |data|); (s'.(sent := s.sent + data[..k]), Count(k))
  }

  /** read(): an empty chunk is the end of the stream. */
  function Reading(s: Sock, size: nat): (r: (Sock, ReadRc))
    ensures r.0.sent == s.sent && r.0.polls == s.polls
    ensures (|r.0.moves| < |s.moves| && !r.0.readable) || r.1 == ReadError(PeerGone(0))
    ensures s.unread == (if r.1.Chunk? then r.1.data else []) + r.0.unread && (r.1.Chunk? ==> |r.1.data| <= size)
  {
    if s.moves == [] then (s, ReadError(PeerGone(0)))
    else
      var s' := s.(moves := s.moves[1..], readable := false);
      match s.moves[0]
      case MoveFails(errno) => (s', ReadError(errno))
      case Moves(n) =>
        var k := Least(n, Least(size, |s.unread|));
        (s'.(unread := s.unread[k..]), Chunk(s.unread[..k]))
  }

  /** poll() for input: pending input is always reported, unless the call itself fails. */
  function PollingIn(s: Sock): (r: (Sock, PollRc))
    ensures r.0 == s.(polls := r.0.polls, readable := r.0.readable)
    ensures |r.0.polls| < |s.polls| || (r.0 == s && (r.1.TimedOut? || (r.1.Ready? && r.1.events.input)))
    ensures s.readable ==> r.0.readable && (r.1.Ready? ==> r.1.events.input) && !r.1.TimedOut?
  {
    var answer := if s.polls == [] then Silent else s.polls[0];
    var s' := s.(polls := Tail(s.polls));
    match answer
    case PollFails(errno) => (s', PollError(errno))
    case Silent => (s', if s.readable then Ready(NO_EVENTS.(input := true)) else TimedOut)
    case Shows(events) =>
      (s'.(readable := s.readable || events.input), Ready(events.(input := s.readable || events.input)))
  }

  function PollingOut(s: Sock): (r: (Sock, PollRc))
    ensures r.0 == s.(polls := r.0.polls)
    ensures |r.0.polls| < |s.polls| || r == (s, TimedOut)
  {
    var answer := if s.polls == [] then Silent else s.polls[0];
    var s' := s.(polls := Tail(s.polls));
    match answer
    case PollFails(errno) => (s', PollError(errno))
    case Silent => (s', TimedOut)
    case Shows(events) => (s', Ready(events))
  }

  /** waitpid(WNOHANG): an end that has happened is always reported, unless the call itself fails. */
  function Waiting(p: Proc): (Proc, WaitRc) {
    var answer := if p.waits == [] then Running else p.waits[0];
    var p' := p.(waits := Tail(p.waits));
    match answer
    case WaitFails => (p', WaitError)
    case Running => (p', if p.status.Some? then Reaped(p.status.value) else NotYet)
    case Ends(w) => (p', Reaped(if p.status.Some? then p.status.value else w))
  }

  /** An answer that starts a child: with a pid and a descriptor that are not in use. */
  predicate CanStart(answer: Option<Forked>, procs: map<int, Proc>, socks: map<int, Sock>) {
    && answer.Some? && answer.value.pid > 0 && answer.value.pid !in procs
    && answer.value.fd >= 0 && answer.value.fd !in socks
  }

  /** What has happened so far: every pid that was forked and every one that was reaped, every descriptor that was
      opened and every one that was closed, as often as it happened. */
  datatype Log = Log(forks: multiset<int>, reaps: multiset<int>, opens: multiset<int>, closes: multiset<int>)

  /** A script that has run out is a failure. */
  function NextRound(rounds: seq<Round>): Round {
    if rounds == [] then RoundFails(Fault(0)) else rounds[0]
  }

  /** Those with input pending. */
  function Readable(fds: seq<int>, socks: map<int, Sock>): set<int> {
    set fd | fd in fds && fd in socks && socks[fd].readable
  }

  class Kernel {
    /** Children not yet reaped and descriptors not yet closed. */
    var procs: map<int, Proc>
    var socks: map<int, Sock>
    /** What each closed descriptor's peer was given, in the order of closing. */
    var closed: seq<Octets>
    var spawns: seq<Option<Forked>>
    /** Which of the polled descriptors show an event at the next poll() of several. */
    var rounds: seq<Round>
    var now: nat
    var ticks: seq<nat>
    ghost var log: Log

    /** What was forked and not reaped is exactly the live children, each once, and what was opened and not closed
        exactly the open descriptors. */
    ghost predicate Reckoned()
      reads this`procs, this`socks, this`log
    {
      log.forks == log.reaps + multiset(procs.Keys) && log.opens == log.closes + multiset(socks.Keys)
    }

    /** The time when the clock will have made all its ticks. */
    ghost function Horizon(): (t: nat)
      reads this`now, this`ticks
      ensures t >= now
    {
      now + Sum(ticks)
    }

    /** What the clock will show next. */
    ghost function NextTime(): nat
      reads this`now, this`ticks
    {
      now + if ticks == [] then 0 else ticks[0]
    }

    /** Time passed, by ticks of the script only. */
    twostate predicate Ticked()
      reads this`now, this`ticks
    {
      now >= old(now) && Horizon() == old(Horizon())
    }

    /** Time passed, and the clock has no more ticks to come than before. */
    twostate predicate Onward()
      reads this`now, this`ticks
    {
      now >= old(now) && Sum(ticks) <= old(Sum(ticks))
    }

    /** Without live children and open descriptors every fork has been reaped and every descriptor closed, as often as
        it was forked or opened. */
    lemma NothingLeft()
      requires Reckoned() && procs == map[] && socks == map[]
      ensures log.forks == log.reaps && log.opens == log.closes
    {
      assert procs.Keys == {} && socks.Keys == {};
    }

    /** Moving data over a descriptor opens and closes nothing. */
    twostate lemma StillReckoned(fd: int)
      requires old(Reckoned()) && log == old(log) && procs == old(procs)
      requires fd in old(socks) && fd in socks && socks == old(socks)[fd := socks[fd]]
      ensures Reckoned()
    {
      assert socks.Keys == old(socks.Keys);
    }

    /** steady_clock::now(). */
    method Now() returns (t: nat)
      modifies this`now, this`ticks
      ensures t == now == old(NextTime()) && Ticked()
    {
      if ticks != [] {
        now, ticks := now + ticks[0], ticks[1..];
      }
      t := now;
    }

    method SleepMillisecond()
      modifies this`now
      ensures now == old(now) + 1
    {
      now := now + 1;
    }

    /** socketpair() and fork(): a new child and the parent's end of its socket, or nothing. */
    method Spawn() returns (r: Option<(int, int)>)
      modifies this`procs, this`socks, this`spawns, this`log
      ensures old(Reckoned()) ==> Reckoned()
      ensures log == if r.None? then old(log) else
        old(log).(forks := old(log).forks + multiset{r.value.0}, opens := old(log).opens + multiset{r.value.1})
      ensures r.None? ==> procs == old(procs) && socks == old(socks)
      ensures spawns == Tail(old(spawns))
      ensures r.Some? <==> old(spawns) != [] && CanStart(old(spawns)[0], old(procs), old(socks))
      ensures r.Some? ==>
        var (pid, fd) := r.value;
        && pid > 0 && pid !in old(procs) && pid in procs && procs == old(procs)[pid := procs[pid]]
        && fd >= 0 && fd !in old(socks) && fd in socks && socks == old(socks)[fd := socks[fd]]
        && pid == old(spawns)[0].value.pid && procs[pid] == old(spawns)[0].value.proc
        && fd == old(spawns)[0].value.fd && socks[fd] == old(spawns)[0].value.sock.(sent := [])
    {
      r := None;
      if spawns != [] {
        var next := spawns[0];
        spawns := spawns[1..];
        if CanStart(next, procs, socks) {
          procs := procs[next.value.pid := next.value.proc];
          socks := socks[next.value.fd := next.value.sock.(sent := [])];
          r := Some((next.value.pid, next.value.fd));
          log := log.(forks := log.forks + multiset{next.value.pid}, opens := log.opens + multiset{next.value.fd});
        }
      }
    }

    method Send(fd: int, data: Octets) returns (rc: MoveRc)
      requires fd in socks
      modifies this`socks
      ensures fd in socks && socks == old(socks)[fd := socks[fd]]
      ensures (socks[fd], rc) == Sending(old(socks[fd]), data)
    {
      var (s, answer) := Sending(socks[fd], data);
      socks := socks[fd := s];
      rc := answer;
    }

    method Read(fd: int, size: nat) returns (rc: ReadRc)
      requires fd in socks
      modifies this`socks
      ensures fd in socks && socks == old(socks)[fd := socks[fd]]
      ensures (socks[fd], rc) == Reading(old(socks[fd]), size)
    {
      var (s, answer) := Reading(socks[fd], size);
      socks := socks[fd := s];
      rc := answer;
    }

    method PollIn(fd: int) returns (rc: PollRc)
      requires fd in socks
      modifies this`socks
      ensures fd in socks && socks == old(socks)[fd := socks[fd]]
      ensures (socks[fd], rc) == PollingIn(old(socks[fd])) && (old(Reckoned()) ==> Reckoned())
    {
      var (s, answer) := PollingIn(socks[fd]);
      socks := socks[fd := s];
      rc := answer;
    }

    method PollOut(fd: int) returns (rc: PollRc)
      requires fd in socks
      modifies this`socks
      ensures fd in socks && socks == old(socks)[fd := socks[fd]]
      ensures (socks[fd], rc) == PollingOut(old(socks[fd]))
    {
      var (s, answer) := PollingOut(socks[fd]);
      socks := socks[fd := s];
      rc := answer;
    }

    /** poll() of several descriptors; pending input is always reported. */
    method PollAll(fds: seq<int>) returns (rc: RoundRc)
      requires forall fd | fd in fds :: fd in socks
      modifies this`rounds
      ensures rounds == Tail(old(rounds))
      ensures rc == match NextRound(old(rounds))
        case RoundFails(errno) => RoundError(errno)
        case Round(shown) => Seen(Select(fds, shown + Readable(fds, socks)))
    {
      var answer := NextRound(rounds);
      rounds := Tail(rounds);
      match answer
      case RoundFails(errno) => rc := RoundError(errno);
      case Round(shown) => rc := Seen(Select(fds, shown + Readable(fds, socks)));
    }

    /** A descriptor may be closed once: it must be open. */
    method Close(fd: int)
      requires fd in socks
      modifies this`socks, this`closed, this`log
      ensures (old(Reckoned()) ==> Reckoned()) && log == old(log).(closes := old(log).closes + multiset{fd})
      ensures socks == old(socks) - {fd}
      ensures closed == old(closed) + [old(socks[fd]).sent]
    {
      closed := closed + [socks[fd].sent];
      log := log.(closes := log.closes + multiset{fd});
      socks := socks - {fd};
    }

    /** Only a child that has not been reaped may be waited for; waiting may reap it. */
    method WaitNoHang(pid: int) returns (rc: WaitRc)
      requires pid in procs
      modifies this`procs, this`log
      ensures old(Reckoned()) ==> Reckoned()
      ensures log == if rc.Reaped? then old(log).(reaps := old(log).reaps + multiset{pid}) else old(log)
      ensures rc == Waiting(old(procs[pid])).1
      ensures procs == if rc.Reaped? then old(procs) - {pid} else old(procs)[pid := Waiting(old(procs[pid])).0]
    {
      var (p, answer) := Waiting(procs[pid]);
      log := if answer.Reaped? then log.(reaps := log.reaps + multiset{pid}) else log;
      procs := if answer.Reaped? then procs - {pid} else procs[pid := p];
      rc := answer;
    }

    /** The blocking waitpid(): of a child that has ended, or it might block for ever. */
    method Wait(pid: int)
      requires pid in procs && procs[pid].status.Some?
      modifies this`procs, this`log
      ensures procs == old(procs) - {pid}
      ensures (old(Reckoned()) ==> Reckoned()) && log == old(log).(reaps := old(log).reaps + multiset{pid})
    {
      log := log.(reaps := log.reaps + multiset{pid});
      procs := procs - {pid};
    }

    /** SIGKILL goes to unreaped children only. */
    method Kill(pid: int)
      requires pid in procs
      modifies this`procs
      ensures pid in procs && procs == old(procs)[pid := procs[pid]] && procs[pid].status.Some?
      ensures old(Reckoned()) ==> Reckoned()
    {
      if procs[pid].status.None? {
        procs := procs[pid := procs[pid].(status := Some(Signalled(9)))];
      }
    }
  }

  /** The elements of `s` that are in `chosen`, in order. */
  function Select(s: seq<int>, chosen: set<int>): (r: seq<int>)
    ensures forall x :: x in r <==> x in s && x in chosen
  {
    if s == [] then [] else (if s[0] in chosen then [s[0]] else []) + Select(s[1..], chosen)
  }

  /** Changing the entry of a key changes no key. */
  lemma SameKeys<T>(m: map<int, T>, m': map<int, T>, k: int)
    requires k in m && k in m' && m - {k} == m' - {k}
    ensures m.Keys == m'.Keys
  {
    forall x
      ensures x in m.Keys <==> x in m'.Keys
    {
      if x != k {
        assert x in m <==> x in m - {k};
        assert x in m' <==> x in m' - {k};
      }
    }
  }
}
