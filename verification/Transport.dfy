/** Exact reads and writes over a stream that splits, shortens and interrupts them, and the packets on top. */
module Transport {
  import opened Bytes
  import opened Codec
  import CodecIo
  import opened Frame
  import opened Kernels

  datatype IoResult = IoOk | IoTimeout | IoEof | IoDisconnected(code: nat) | IoSystemError(code: nat)

  const EBADF := 9
  const EINTR := 4
  const EAGAIN := 11
  const EPIPE := 32
  const ECONNRESET := 104

  function ResultFromErrno(errno: Errno): IoResult {
    match errno
    case PeerGone(code) => IoDisconnected(code)
    case Fault(code) => IoSystemError(code)
    case Interrupted => IoSystemError(EINTR)
    case WouldBlock => IoSystemError(EAGAIN)
  }

  /** `after` is the stream `before` with a beginning of `data` appended: all of it exactly when `ok`. */
  predicate Wrote(before: Octets, after: Octets, data: Octets, ok: bool) {
    var k := |after| - |before|;
    0 <= k <= |data| && (ok <==> k == |data|) && after == before + data[..k]
  }

  /** The front of `buf` holds what was taken off the stream `before`: the whole buffer exactly when `ok`. */
  predicate Filled(before: Octets, after: Octets, buf: Octets, ok: bool) {
    var k := |before| - |after|;
    0 <= k <= |buf| && (ok <==> k == |buf|) && before == buf[..k] + after
  }

  /** The first `done` bytes of `buf` were taken off the stream `before`. */
  predicate Partly(before: Octets, after: Octets, buf: Octets, done: nat) {
    done <= |buf| && before == buf[..done] + after
  }

  lemma PartlyFilled(before: Octets, after: Octets, buf: Octets, done: nat)
    requires Partly(before, after, buf, done)
    ensures done <= |buf| && |before| == done + |after| && Filled(before, after, buf, done == |buf|)
  {}

  /** Calls that move something or are interrupted, with at least `size` of the former. */
  predicate Benign(moves: seq<Moved>, size: nat) {
    && (forall m | m in moves :: if m.Moves? then m.n > 0 else m.errno.Interrupted?)
    && CountMoves(moves) >= size
  }

  function CountMoves(moves: seq<Moved>): nat {
    if moves == [] then 0 else (if moves[0].Moves? then 1 else 0) + CountMoves(moves[1..])
  }

  lemma BenignNext(moves: seq<Moved>, size: nat)
    requires Benign(moves, size) && size > 0
    ensures moves != []
    ensures if moves[0].Moves? then moves[0].n > 0 else moves[0].errno.Interrupted? && Benign(moves[1..], size)
  {
    assert moves[0] in moves;
  }

  lemma BenignMoved(moves: seq<Moved>, size: nat, k: nat)
    requires Benign(moves, size) && moves != [] && moves[0].Moves? && 1 <= k <= size
    ensures Benign(moves[1..], size - k)
  {}

  /** A poll() that does not end a transfer in this direction. */
  predicate Passable(p: Polled, out: bool) {
    match p
    case Silent => false
    case PollFails(errno) => errno.Interrupted?
    case Shows(e) => !e.nval && (if out then !e.err && !e.hup else e.input || (!e.hup && !e.err))
  }

  function CountReady(polls: seq<Polled>, out: bool): nat {
    if polls == [] then 0
    else
      (if polls[0].Shows? && (if out then polls[0].events.output else polls[0].events.input) then 1 else 0)
      + CountReady(polls[1..], out)
  }

  /** The same for a transfer with a deadline: calls may also have to be repeated, no poll() ends the transfer, and all
      but `owed` of the calls are announced by one. */
  predicate Calm(s: Sock, size: nat, out: bool, owed: nat) {
    && (forall m | m in s.moves :: if m.Moves? then m.n > 0 else m.errno.Interrupted? || m.errno.WouldBlock?)
    && (forall p | p in s.polls :: Passable(p, out))
    && size <= CountMoves(s.moves) && |s.moves| <= CountReady(s.polls, out) + owed
  }

  lemma {:induction false} CountMovesBound(moves: seq<Moved>)
    ensures CountMoves(moves) <= |moves|
  {
    if moves == [] {
    } else {
      CountMovesBound(moves[1..]);
    }
  }

  lemma CalmPoll(s: Sock, size: nat, out: bool)
    requires Calm(s, size, out, 0) && size > 0
    ensures var (s', rc) := if out then PollingOut(s) else PollingIn(s);
      match rc
      case PollError(errno) => errno.Interrupted? && Calm(s', size, out, 0)
      case TimedOut => false
      case Ready(e) =>
        && Passable(Shows(e), out)
        && Calm(s', size, out, if (if out then e.output else e.input) then 1 else 0)
  {
    CountMovesBound(s.moves);
    assert s.polls != [] && s.polls[0] in s.polls;
  }

  lemma CalmMove(s: Sock, s': Sock, size: nat, out: bool, k: nat)
    requires Calm(s, size, out, 1) && size > 0 && s.moves != []
    requires s'.moves == s.moves[1..] && s'.polls == s.polls
    requires if s.moves[0].Moves? then 1 <= k <= size else k == 0
    ensures Calm(s', size - k, out, 0)
  {}

  /** A poll() that a transfer goes on after. Input that was there before may stand beside a hang-up. */
  predicate Passes(p: Polled, out: bool, readable: bool) {
    Passable(p, out) || (!out && readable && (p.Silent? || (p.Shows? && !p.events.nval)))
  }

  /** The answers of poll() that were used up did not end the transfer. */
  predicate Passed(polls: seq<Polled>, polls': seq<Polled>, out: bool, readable: bool) {
    && |polls'| <= |polls| && polls' == polls[|polls| - |polls'|..]
    && forall k | 0 <= k < |polls| - |polls'| :: Passes(polls[k], out, readable)
  }

  lemma NonePassed(polls: seq<Polled>, out: bool, readable: bool)
    ensures Passed(polls, polls, out, readable)
  {}

  lemma PassedOn(a: seq<Polled>, b: seq<Polled>, c: seq<Polled>, out: bool, readable: bool, still: bool)
    requires Passed(a, b, out, readable) && Passed(b, c, out, still) && (still ==> readable)
    ensures Passed(a, c, out, readable)
  {
    hide Passable;
    forall k | 0 <= k < |a| - |c|
      ensures Passes(a[k], out, readable)
    {
      var n := |a| - |b|;
      if k >= n {
        assert a[k] == b[k - n] && Passes(b[k - n], out, still);
      }
    }
  }

  lemma PollPassed(s: Sock)
    ensures var (s', rc) := PollingOut(s);
      match rc
      case TimedOut => true
      case PollError(errno) => errno.Interrupted? ==> Passed(s.polls, s'.polls, true, false)
      case Ready(e) => !e.nval && !e.err && !e.hup ==> Passed(s.polls, s'.polls, true, false)
    ensures var (s', rc) := PollingIn(s);
      match rc
      case TimedOut => true
      case PollError(errno) =>
        && (s'.readable ==> s.readable)
        && (errno.Interrupted? ==> Passed(s.polls, s'.polls, false, s.readable))
      case Ready(e) =>
        && (s'.readable ==> s.readable || e.input)
        && (!e.nval && (e.input || (!e.err && !e.hup)) ==> Passed(s.polls, s'.polls, false, s.readable))
  {}

  /** A send() or read() that a transfer goes on after. */
  predicate Harmless(m: Moved, timed: bool) {
    if m.Moves? then m.n > 0 else m.errno.Interrupted? || (timed && m.errno.WouldBlock?)
  }

  /** The calls that were used up were harmless; when the transfer failed, all but the last. */
  predicate Used(moves: seq<Moved>, moves': seq<Moved>, ok: bool, timed: bool) {
    && |moves'| <= |moves| && moves' == moves[|moves| - |moves'|..]
    && forall k | 0 <= k < |moves| - |moves'| - (if ok then 0 else 1) :: Harmless(moves[k], timed)
  }

  lemma NoneUsed(moves: seq<Moved>, ok: bool, timed: bool)
    ensures Used(moves, moves, ok, timed)
  {}

  lemma UsedOn(a: seq<Moved>, b: seq<Moved>, c: seq<Moved>, ok: bool, timed: bool)
    requires Used(a, b, true, timed) && Used(b, c, ok, timed)
    ensures Used(a, c, ok, timed)
  {
    hide Harmless;
    forall k | 0 <= k < |a| - |c| - (if ok then 0 else 1)
      ensures Harmless(a[k], timed)
    {
      var n := |a| - |b|;
      if k >= n {
        assert a[k] == b[k - n] && Harmless(b[k - n], timed);
      }
    }
  }

  lemma EndsUsed(a: seq<Moved>, b: seq<Moved>)
    requires Used(a, b, true, true)
    ensures Used(a, b, false, true)
  {}

  lemma SendUsed(s: Sock, data: Octets, timed: bool)
    requires data != []
    ensures var (s', rc) := Sending(s, data);
      Used(s.moves, s'.moves, if rc.Count? then rc.n > 0 else rc.errno.Interrupted? || (timed && rc.errno.WouldBlock?),
           timed)
  {}

  /** A transfer goes on after this read(). */
  predicate ReadsOn(rc: ReadRc, timed: bool) {
    if rc.Chunk? then rc.data != [] else rc.errno.Interrupted? || (timed && rc.errno.WouldBlock?)
  }

  lemma ReadUsed(s: Sock, size: nat, timed: bool)
    requires size > 0
    ensures var (s', rc) := Reading(s, size);
      Used(s.moves, s'.moves, ReadsOn(rc, timed), timed)
  {}

  /** One read() from a stream that holds the `left` bytes asked for. */
  predicate RunsOn(s: Sock, s': Sock, left: nat, more: nat, rc: ReadRc) {
    match rc
    case ReadError(errno) =>
      && |s'.unread| >= left
      && (Benign(s.moves, left + more) ==> errno.Interrupted? && Benign(s'.moves, left + more))
      && (Calm(s, left + more, false, 1) ==>
            (errno.Interrupted? || errno.WouldBlock?) && Calm(s', left + more, false, 0))
    case Chunk(chunk) =>
      && |s'.unread| >= left - |chunk| >= 0
      && (Benign(s.moves, left + more) ==> chunk != [] && Benign(s'.moves, left - |chunk| + more))
      && (Calm(s, left + more, false, 1) ==> chunk != [] && Calm(s', left - |chunk| + more, false, 0))
  }

  lemma FullRead(s: Sock, left: nat, more: nat)
    requires |s.unread| >= left > 0
    ensures RunsOn(s, Reading(s, left).0, left, more, Reading(s, left).1)
  {
    hide Benign, Calm;
    if Benign(s.moves, left + more) {
      BenignRead(s, left, more);
    }
    if Calm(s, left + more, false, 1) {
      CalmRead(s, left, more);
    }
  }

  /** One read() from a stream that does not hold enough. */
  predicate RunsDry(s: Sock, s': Sock, rc: ReadRc) {
    match rc
    case ReadError(errno) =>
      && |s'.unread| == |s.unread|
      && (Benign(s.moves, |s.unread| + 1) ==> errno.Interrupted? && Benign(s'.moves, |s'.unread| + 1))
      && (Calm(s, |s.unread| + 1, false, 1) ==>
            (errno.Interrupted? || errno.WouldBlock?) && Calm(s', |s'.unread| + 1, false, 0))
    case Chunk(chunk) =>
      && |s'.unread| == |s.unread| - |chunk|
      && (chunk != [] ==>
            && (Benign(s.moves, |s.unread| + 1) ==> Benign(s'.moves, |s'.unread| + 1))
            && (Calm(s, |s.unread| + 1, false, 1) ==> Calm(s', |s'.unread| + 1, false, 0)))
  }

  lemma DryRead(s: Sock, left: nat)
    requires |s.unread| < left
    ensures RunsDry(s, Reading(s, left).0, Reading(s, left).1)
  {
    hide Benign, Calm;
    var size := |s.unread| + 1;
    var (s', rc) := Reading(s, left);
    if Benign(s.moves, size) {
      BenignNext(s.moves, size);
      if rc.Chunk? && rc.data != [] {
        BenignMoved(s.moves, size, |rc.data|);
      }
    }
    if Calm(s, size, false, 1) {
      CalmNext(s, size, false);
      if rc.ReadError? || rc.data != [] {
        CalmMove(s, s', size, false, if rc.Chunk? then |rc.data| else 0);
      }
    }
  }

  // ---- Why a transfer fails ---------------------------------------------------------------

  /** The answers still to come were to come before. */
  predicate Later(s: Sock, s': Sock) {
    (forall m | m in s'.moves :: m in s.moves) && forall p | p in s'.polls :: p in s.polls
  }

  /** A send() or read() answered in a way that gives this failure; `dry` says that the stream may have run out. */
  predicate MoveSaid(s: Sock, r: IoResult, dry: bool) {
    match r
    case IoOk => false
    case IoTimeout => false
    case IoEof => dry || Moves(0) in s.moves
    case IoDisconnected(code) => code == 0 || MoveFails(PeerGone(code)) in s.moves
    case IoSystemError(code) =>
      MoveFails(Fault(code)) in s.moves || (code == EAGAIN && MoveFails(WouldBlock) in s.moves)
  }

  /** A poll() answered in a way that gives this failure. */
  ghost predicate PollSaid(s: Sock, r: IoResult) {
    match r
    case IoOk => false
    case IoTimeout => Silent in s.polls
    case IoEof => exists p :: p in s.polls && p.Shows? && p.events.hup
    case IoDisconnected(code) =>
      || PollFails(PeerGone(code)) in s.polls
      || (code in {EPIPE, ECONNRESET} && exists p :: p in s.polls && p.Shows? && (p.events.err || p.events.hup))
    case IoSystemError(code) =>
      || PollFails(Fault(code)) in s.polls || (code == EAGAIN && PollFails(WouldBlock) in s.polls)
      || (code == EBADF && exists p :: p in s.polls && p.Shows? && p.events.nval)
  }

  /** A transfer with a deadline fails only for a reason: an answer of the kernel, the deadline, or no answer left. */
  ghost predicate TimedReason(s: Sock, s': Sock, r: IoResult, dry: bool, late: bool) {
    r.IoOk? || MoveSaid(s, r, dry) || PollSaid(s, r) || (r.IoTimeout? && (late || s'.polls == []))
  }

  /** A transfer fails for a reason, with or without a deadline. */
  ghost predicate Why(s: Sock, s': Sock, r: IoResult, timed: bool, dry: bool, late: bool) {
    if timed then TimedReason(s, s', r, dry, late) else r.IoOk? || MoveSaid(s, r, dry)
  }

  /** The reason, when the socket is not there any more to look at. */
  ghost predicate Blamed(s: Sock, r: IoResult, timed: bool, out: bool, late: bool) {
    exists s' :: Later(s, s') && Why(s, s', r, timed, !out && s'.unread == [], late)
  }

  lemma BlamedSince(s: Sock, r: IoResult, timed: bool, out: bool, late: bool, since: bool)
    requires Blamed(s, r, timed, out, late) && (late ==> since)
    ensures Blamed(s, r, timed, out, since)
  {
    hide Later, MoveSaid, PollSaid;
    var s' :| Later(s, s') && Why(s, s', r, timed, !out && s'.unread == [], late);
    assert Why(s, s', r, timed, !out && s'.unread == [], since);
  }

  lemma LaterSelf(s: Sock)
    ensures Later(s, s)
  {}

  lemma LaterTwice(s: Sock, mid: Sock, s': Sock)
    requires Later(s, mid) && Later(mid, s')
    ensures Later(s, s')
  {}

  lemma WhyEarlier(s: Sock, mid: Sock, s': Sock, r: IoResult, timed: bool, dry: bool, late: bool, since: bool)
    requires Later(s, mid) && Why(mid, s', r, timed, dry, late) && (late ==> since)
    ensures Why(s, s', r, timed, dry, since)
  {}

  lemma SendAnswer(start: Sock, s: Sock, data: Octets)
    requires Later(start, s) && data != []
    ensures var (s', rc) := Sending(s, data);
      && Later(start, s')
      && match rc
         case MoveError(errno) => errno.Interrupted? || MoveSaid(start, ResultFromErrno(errno), false)
         case Count(n) => n > 0 || MoveSaid(start, IoEof, false)
  {
    assert s.moves != [] ==> s.moves[0] in s.moves;
  }

  lemma ReadAnswer(start: Sock, s: Sock, size: nat)
    requires Later(start, s) && size > 0
    ensures var (s', rc) := Reading(s, size);
      && Later(start, s')
      && match rc
         case ReadError(errno) =>
           errno.Interrupted? || forall dry :: MoveSaid(start, ResultFromErrno(errno), dry)
         case Chunk(data) => data != [] || MoveSaid(start, IoEof, s.unread == [])
  {
    assert s.moves != [] ==> s.moves[0] in s.moves;
  }

  /** What poll() reports was said by the script. */
  ghost predicate PollExplained(start: Sock, s': Sock, rc: PollRc) {
    match rc
    case PollError(errno) => errno.Interrupted? || PollSaid(start, ResultFromErrno(errno))
    case TimedOut => s'.polls == [] || PollSaid(start, IoTimeout)
    case Ready(e) =>
      && (e.nval ==> PollSaid(start, IoSystemError(EBADF)))
      && (e.err || e.hup ==> PollSaid(start, IoDisconnected(EPIPE)) && PollSaid(start, IoDisconnected(ECONNRESET)))
      && (e.hup ==> PollSaid(start, IoEof))
  }

  lemma PollAnswers(start: Sock, s: Sock)
    requires Later(start, s)
    ensures Later(start, PollingIn(s).0) && PollExplained(start, PollingIn(s).0, PollingIn(s).1)
    ensures Later(start, PollingOut(s).0) && PollExplained(start, PollingOut(s).0, PollingOut(s).1)
  {
    if s.polls != [] {
      var p := s.polls[0];
      assert p in s.polls && p in start.polls;
    }
  }

  // ---- Blocking transfers -----------------------------------------------------------------

  lemma NextPart(data: Octets, done: nat, n: nat)
    requires done + n <= |data|
    ensures data[..done] + data[done..][..n] == data[..done + n]
  {}

  lemma BenignWrite(s: Sock, left: Octets, more: nat)
    requires Benign(s.moves, |left| + more) && left != []
    ensures var (s', rc) := Sending(s, left);
      match rc
      case MoveError(errno) => errno.Interrupted? && Benign(s'.moves, |left| + more)
      case Count(n) => 0 < n <= |left| && Benign(s'.moves, |left| - n + more)
  {
    BenignNext(s.moves, |left| + more);
    var rc := Sending(s, left).1;
    if rc.Count? {
      BenignMoved(s.moves, |left| + more, rc.n);
    }
  }

  /** `more` is the size of the transfers to come: what a benign stream still takes is still benign for them. */
  method WriteAll(os: Kernel, fd: int, data: Octets, ghost more: nat) returns (r: IoResult)
    requires fd in os.socks
    modifies os`socks
    ensures fd in os.socks && os.socks == old(os.socks)[fd := os.socks[fd]]
    ensures Wrote(old(os.socks[fd]).sent, os.socks[fd].sent, data, r.IoOk?)
    ensures os.socks[fd].unread == old(os.socks[fd]).unread
    ensures (r.IoOk? || MoveSaid(old(os.socks[fd]), r, false)) && Later(old(os.socks[fd]), os.socks[fd])
    ensures Used(old(os.socks[fd]).moves, os.socks[fd].moves, r.IoOk?, false)
    ensures Benign(old(os.socks[fd]).moves, |data| + more) ==> r.IoOk? && Benign(os.socks[fd].moves, more)
  {
    hide Benign, MoveSaid, Sending, Later, Used;
    LaterSelf(os.socks[fd]);
    ghost var start := os.socks[fd];
    NoneUsed(start.moves, true, false);
    ghost var good := Benign(start.moves, |data| + more);
    var written := 0;
    while written < |data|
      invariant fd in os.socks && os.socks == old(os.socks)[fd := os.socks[fd]]
      invariant 0 <= written <= |data| && os.socks[fd].sent == start.sent + data[..written]
      invariant os.socks[fd].unread == start.unread
      invariant good ==> Benign(os.socks[fd].moves, |data| - written + more)
      invariant Later(start, os.socks[fd]) && Used(start.moves, os.socks[fd].moves, true, false)
      decreases |os.socks[fd].moves|
    {
      ghost var left := data[written..];
      if good {
        BenignWrite(os.socks[fd], left, more);
      }
      SendAnswer(start, os.socks[fd], left);
      SendUsed(os.socks[fd], left, false);
      ghost var moves := os.socks[fd].moves;
      var rc := os.Send(fd, data[written..]);
      UsedOn(start.moves, moves, os.socks[fd].moves, if rc.Count? then rc.n > 0 else rc.errno.Interrupted?, false);
      match rc {
        case MoveError(errno) =>
          if errno.Interrupted? {
            continue;
          }
          return ResultFromErrno(errno);
        case Count(n) =>
          if n == 0 {
            return IoEof;
          }
          NextPart(data, written, n);
          written := written + n;
      }
    }
    assert data[..written] == data;
    r := IoOk;
  }

  /** Copies a chunk into the buffer. */
  method CopyInto(buf: array<Byte>, at: nat, chunk: Octets)
    requires at + |chunk| <= buf.Length
    modifies buf
    ensures buf[..] == old(buf[..at]) + chunk + old(buf[at + |chunk|..])
  {
    forall i | 0 <= i < |chunk| {
      buf[at + i] := chunk[i];
    }
    assert buf[at..at + |chunk|] == chunk;
    assert buf[..at] == old(buf[..at]) && buf[at + |chunk|..] == old(buf[at + |chunk|..]);
    assert buf[..] == buf[..at] + buf[at..at + |chunk|] + buf[at + |chunk|..];
  }

  lemma NothingRead(before: Octets, buf: Octets)
    ensures Partly(before, before, buf, 0)
  {}

  lemma FilledMore(before: Octets, mid: Octets, chunk: Octets, after: Octets, done: nat, buf: Octets, buf': Octets)
    requires done + |chunk| <= |buf| && before == buf[..done] + mid && mid == chunk + after
    requires buf' == buf[..done] + chunk + buf[done + |chunk|..]
    ensures |buf'| == |buf| && before == buf'[..done + |chunk|] + after
  {
    assert buf'[..done + |chunk|] == buf[..done] + chunk;
    assert buf[..done] + (chunk + after) == buf[..done] + chunk + after;
  }

  lemma BenignRead(s: Sock, left: nat, more: nat)
    requires Benign(s.moves, left + more) && |s.unread| >= left > 0
    ensures var (s', rc) := Reading(s, left);
      match rc
      case ReadError(errno) => errno.Interrupted? && Benign(s'.moves, left + more) && |s'.unread| >= left
      case Chunk(chunk) =>
        0 < |chunk| <= left && Benign(s'.moves, left - |chunk| + more) && |s'.unread| >= left - |chunk|
  {
    BenignNext(s.moves, left + more);
    var rc := Reading(s, left).1;
    if rc.Chunk? {
      BenignMoved(s.moves, left + more, |rc.data|);
    }
  }

  lemma CalmWrite(s: Sock, left: Octets, more: nat)
    requires Calm(s, |left| + more, true, 1) && left != []
    ensures var (s', rc) := Sending(s, left);
      match rc
      case MoveError(errno) => (errno.Interrupted? || errno.WouldBlock?) && Calm(s', |left| + more, true, 0)
      case Count(n) => 0 < n <= |left| && Calm(s', |left| - n + more, true, 0)
  {
    hide Calm;
    CalmNext(s, |left| + more, true);
    var (s', rc) := Sending(s, left);
    CalmMove(s, s', |left| + more, true, if rc.Count? then rc.n else 0);
  }

  lemma CalmNext(s: Sock, size: nat, out: bool)
    requires Calm(s, size, out, 1) && size > 0
    ensures s.moves != []
    ensures if s.moves[0].Moves? then s.moves[0].n > 0
      else s.moves[0].errno.Interrupted? || s.moves[0].errno.WouldBlock?
  {
    assert s.moves != [] && s.moves[0] in s.moves;
  }

  lemma CalmRead(s: Sock, left: nat, more: nat)
    requires Calm(s, left + more, false, 1) && |s.unread| >= left > 0
    ensures var (s', rc) := Reading(s, left);
      match rc
      case ReadError(errno) =>
        (errno.Interrupted? || errno.WouldBlock?) && Calm(s', left + more, false, 0) && |s'.unread| >= left
      case Chunk(chunk) =>
        0 < |chunk| <= left && Calm(s', left - |chunk| + more, false, 0) && |s'.unread| >= left - |chunk|
  {
    hide Calm;
    CalmNext(s, left + more, false);
    var (s', rc) := Reading(s, left);
    CalmMove(s, s', left + more, false, if rc.Chunk? then |rc.data| else 0);
  }

  /** One read() into the buffer behind the `done` bytes that stand there already. */
  method ReadSome(os: Kernel, fd: int, buf: array<Byte>, done: nat, ghost start: Sock, ghost more: nat)
      returns (rc: ReadRc)
    requires fd in os.socks && done < buf.Length && Later(start, os.socks[fd])
    requires Partly(start.unread, os.socks[fd].unread, buf[..], done)
    modifies os`socks, buf
    ensures fd in os.socks && os.socks == old(os.socks)[fd := os.socks[fd]] && Later(start, os.socks[fd])
    ensures os.socks[fd].sent == old(os.socks[fd]).sent && os.socks[fd].polls == old(os.socks[fd]).polls
    ensures (|os.socks[fd].moves| < |old(os.socks[fd]).moves| && !os.socks[fd].readable) || rc == ReadError(PeerGone(0))
    ensures match rc
      case ReadError(errno) =>
        && Partly(start.unread, os.socks[fd].unread, buf[..], done)
        && (errno.Interrupted? || forall dry :: MoveSaid(start, ResultFromErrno(errno), dry))
      case Chunk(chunk) =>
        && Partly(start.unread, os.socks[fd].unread, buf[..], done + |chunk|) && done + |chunk| <= buf.Length
        && (chunk != [] || MoveSaid(start, IoEof, os.socks[fd].unread == []))
    ensures |old(os.socks[fd]).unread| >= buf.Length - done ==>
      RunsOn(old(os.socks[fd]), os.socks[fd], buf.Length - done, more, rc)
    ensures |old(os.socks[fd]).unread| < buf.Length - done ==> RunsDry(old(os.socks[fd]), os.socks[fd], rc)
    ensures Used(old(os.socks[fd]).moves, os.socks[fd].moves, ReadsOn(rc, false), false)
      && Used(old(os.socks[fd]).moves, os.socks[fd].moves, ReadsOn(rc, true), true)
  {
    hide Benign, Calm, MoveSaid, Later, Used, RunsDry, RunsOn, Reading;
    ghost var s, was, left := os.socks[fd], buf[..], buf.Length - done;
    if |s.unread| < left {
      DryRead(s, left);
    } else {
      FullRead(s, left, more);
    }
    ReadAnswer(start, s, left);
    ReadUsed(s, left, false);
    ReadUsed(s, left, true);
    rc := os.Read(fd, buf.Length - done);
    match rc {
      case ReadError(_) =>
      case Chunk(chunk) =>
        CopyInto(buf, done, chunk);
        assert s.unread == chunk + os.socks[fd].unread;
        FilledMore(start.unread, s.unread, chunk, os.socks[fd].unread, done, was, buf[..]);
    }
  }

  method ReadAll(os: Kernel, fd: int, buf: array<Byte>, ghost more: nat) returns (r: IoResult)
    requires fd in os.socks
    modifies os`socks, buf
    ensures fd in os.socks && os.socks == old(os.socks)[fd := os.socks[fd]]
    ensures Filled(old(os.socks[fd]).unread, os.socks[fd].unread, buf[..], r.IoOk?)
    ensures os.socks[fd].sent == old(os.socks[fd]).sent
    ensures (r.IoOk? || MoveSaid(old(os.socks[fd]), r, os.socks[fd].unread == []))
      && Later(old(os.socks[fd]), os.socks[fd])
    ensures (Benign(old(os.socks[fd]).moves, buf.Length + more) && |old(os.socks[fd]).unread| >= buf.Length) ==>
              r.IoOk? && Benign(os.socks[fd].moves, more)
    ensures Used(old(os.socks[fd]).moves, os.socks[fd].moves, r.IoOk?, false)
    ensures var s := old(os.socks[fd]); Benign(s.moves, |s.unread| + 1) && |s.unread| < buf.Length ==> r.IoEof?
  {
    hide Partly, Filled, Benign, Reading, Least, MoveSaid, Later, Used, Calm;
    LaterSelf(os.socks[fd]);
    ghost var start := os.socks[fd];
    NoneUsed(start.moves, true, false);
    ghost var short := Benign(start.moves, |start.unread| + 1) && |start.unread| < buf.Length;
    ghost var good := Benign(start.moves, buf.Length + more) && |start.unread| >= buf.Length;
    var done := 0;
    NothingRead(start.unread, buf[..]);
    while done < buf.Length
      invariant fd in os.socks && os.socks == old(os.socks)[fd := os.socks[fd]]
      invariant 0 <= done <= buf.Length && Partly(start.unread, os.socks[fd].unread, buf[..], done)
      invariant os.socks[fd].sent == start.sent
      invariant good ==> Benign(os.socks[fd].moves, buf.Length - done + more)
      invariant Later(start, os.socks[fd]) && Used(start.moves, os.socks[fd].moves, true, false)
      invariant short ==>
        Benign(os.socks[fd].moves, |os.socks[fd].unread| + 1) && |os.socks[fd].unread| < buf.Length - done
      decreases |os.socks[fd].moves|
    {
      PartlyFilled(start.unread, os.socks[fd].unread, buf[..], done);
      ghost var moves := os.socks[fd].moves;
      var rc := ReadSome(os, fd, buf, done, start, more);
      UsedOn(start.moves, moves, os.socks[fd].moves, ReadsOn(rc, false), false);
      match rc {
        case ReadError(errno) =>
          if errno.Interrupted? {
            continue;
          }
          PartlyFilled(start.unread, os.socks[fd].unread, buf[..], done);
          return ResultFromErrno(errno);
        case Chunk(chunk) =>
          if chunk == [] {
            PartlyFilled(start.unread, os.socks[fd].unread, buf[..], done);
            return IoEof;
          }
          done := done + |chunk|;
      }
    }
    PartlyFilled(start.unread, os.socks[fd].unread, buf[..], done);
    r := IoOk;
  }

  // ---- Transfers with a deadline ----------------------------------------------------------

  /** A poll() ends the transfer for a reason. */
  ghost predicate PollEnds(start: Sock, s: Sock, r: IoResult) {
    !r.IoOk? && (PollSaid(start, r) || (r.IoTimeout? && s.polls == []))
  }

  /** One poll() for output: it ends the transfer, or a send() may follow, or the loop goes round again. */
  method AwaitOutput(os: Kernel, fd: int, ghost start: Sock, ghost size: nat)
      returns (end: Option<IoResult>, ready: bool)
    requires fd in os.socks && Later(start, os.socks[fd]) && size > 0
    modifies os`socks
    ensures fd in os.socks && os.socks == old(os.socks)[fd := os.socks[fd]]
    ensures os.socks[fd] == old(os.socks[fd]).(polls := os.socks[fd].polls) && Later(start, os.socks[fd])
    ensures |os.socks[fd].polls| < |old(os.socks[fd]).polls| || end.Some?
    ensures end.Some? ==> PollEnds(start, os.socks[fd], end.value)
    ensures end.None? ==> Passed(old(os.socks[fd]).polls, os.socks[fd].polls, true, false)
    ensures Calm(old(os.socks[fd]), size, true, 0) ==>
              end.None? && Calm(os.socks[fd], size, true, if ready then 1 else 0)
  {
    hide PollingOut, PollSaid, Later, Calm, Passed;
    PollPassed(os.socks[fd]);
    if Calm(os.socks[fd], size, true, 0) {
      CalmPoll(os.socks[fd], size, true);
    }
    PollAnswers(start, os.socks[fd]);
    var polled := os.PollOut(fd);
    match polled {
      case PollError(errno) =>
        return if errno.Interrupted? then None else Some(ResultFromErrno(errno)), false;
      case TimedOut =>
        return Some(IoTimeout), false;
      case Ready(events) =>
        if events.nval {
          return Some(IoSystemError(EBADF)), false;
        }
        if events.err || events.hup {
          return Some(IoDisconnected(EPIPE)), false;
        }
        return None, events.output;
    }
  }

  /** One poll() for input: it ends the transfer, or a read() may follow, or the loop goes round again. */
  method AwaitInput(os: Kernel, fd: int, ghost start: Sock, ghost size: nat)
      returns (end: Option<IoResult>, ready: bool)
    requires fd in os.socks && Later(start, os.socks[fd]) && size > 0
    modifies os`socks
    ensures fd in os.socks && os.socks == old(os.socks)[fd := os.socks[fd]]
    ensures os.socks[fd] == old(os.socks[fd]).(polls := os.socks[fd].polls, readable := os.socks[fd].readable)
    ensures Later(start, os.socks[fd]) && |os.socks[fd].polls| <= |old(os.socks[fd]).polls|
    ensures |os.socks[fd].polls| < |old(os.socks[fd]).polls| || end.Some? || ready
    ensures end.Some? ==> PollEnds(start, os.socks[fd], end.value)
    ensures end.None? ==> Passed(old(os.socks[fd]).polls, os.socks[fd].polls, false, old(os.socks[fd]).readable)
    ensures end.None? && !ready && os.socks[fd].readable ==> old(os.socks[fd]).readable
    ensures Calm(old(os.socks[fd]), size, false, 0) ==>
              end.None? && Calm(os.socks[fd], size, false, if ready then 1 else 0)
  {
    hide PollingIn, PollSaid, Later, Calm, Passed;
    PollPassed(os.socks[fd]);
    if Calm(os.socks[fd], size, false, 0) {
      CalmPoll(os.socks[fd], size, false);
    }
    PollAnswers(start, os.socks[fd]);
    var polled := os.PollIn(fd);
    match polled {
      case PollError(errno) =>
        return if errno.Interrupted? then None else Some(ResultFromErrno(errno)), false;
      case TimedOut =>
        return Some(IoTimeout), false;
      case Ready(events) =>
        if events.nval {
          return Some(IoSystemError(EBADF)), false;
        }
        if !events.input {
          if events.hup {
            return Some(IoEof), false;
          }
          if events.err {
            return Some(IoDisconnected(ECONNRESET)), false;
          }
        }
        return None, events.input;
    }
  }

  /** One turn of the loop: a poll(), and a send() when there is room. */
  method WriteTurn(os: Kernel, fd: int, data: Octets, written: nat, ghost start: Sock, ghost more: nat)
    returns (end: Option<IoResult>, n: nat)
    requires fd in os.socks && written < |data| && Later(start, os.socks[fd])
    requires os.socks[fd].sent == start.sent + data[..written]
    modifies os`socks
    ensures fd in os.socks && os.socks == old(os.socks)[fd := os.socks[fd]] && Later(start, os.socks[fd])
    ensures os.socks[fd].unread == old(os.socks[fd]).unread
    ensures written + n <= |data| && os.socks[fd].sent == start.sent + data[..written + n]
    ensures |os.socks[fd].moves| + |os.socks[fd].polls| < |old(os.socks[fd]).moves| + |old(os.socks[fd]).polls|
      || end.Some?
    ensures end.None? ==> Passed(old(os.socks[fd]).polls, os.socks[fd].polls, true, false)
    ensures Used(old(os.socks[fd]).moves, os.socks[fd].moves, end.None?, true)
    ensures end.Some? ==>
              && n == 0 && !end.value.IoOk?
              && (PollEnds(start, os.socks[fd], end.value) || MoveSaid(start, end.value, false))
    ensures var left := |data| - written;
      Calm(old(os.socks[fd]), left + more, true, 0) ==>
        end.None? && Calm(os.socks[fd], left - n + more, true, 0)
  {
    hide Calm, MoveSaid, PollSaid, Later, Passed, Sending, PollingOut, Used;
    NoneUsed(os.socks[fd].moves, true, true);
    NoneUsed(os.socks[fd].moves, false, true);
    var poll, ready := AwaitOutput(os, fd, start, |data| - written + more);
    if poll.Some? || !ready {
      return poll, 0;
    }
    ghost var left := data[written..];
    if Calm(os.socks[fd], |left| + more, true, 1) {
      CalmWrite(os.socks[fd], left, more);
    }
    SendAnswer(start, os.socks[fd], left);
    SendUsed(os.socks[fd], left, true);
    var rc := os.Send(fd, data[written..]);
    match rc {
      case MoveError(errno) =>
        return if errno.Interrupted? || errno.WouldBlock? then None else Some(ResultFromErrno(errno)), 0;
      case Count(sent) =>
        NextPart(data, written, sent);
        return if sent == 0 then Some(IoEof) else None, sent;
    }
  }

  method WriteAllFor(os: Kernel, fd: int, data: Octets, timeout: nat, ghost more: nat) returns (r: IoResult)
    requires fd in os.socks
    modifies os`socks, os`now, os`ticks
    ensures fd in os.socks && os.socks == old(os.socks)[fd := os.socks[fd]]
    ensures Wrote(old(os.socks[fd]).sent, os.socks[fd].sent, data, r.IoOk?)
    ensures os.socks[fd].unread == old(os.socks[fd]).unread
    ensures TimedReason(old(os.socks[fd]), os.socks[fd], r, false, os.now >= old(os.now) + timeout)
    ensures Later(old(os.socks[fd]), os.socks[fd])
    ensures r.IoOk? ==> Passed(old(os.socks[fd]).polls, os.socks[fd].polls, true, false)
    ensures Used(old(os.socks[fd]).moves, os.socks[fd].moves, r.IoOk?, true)
    ensures r.IoOk? && data != [] ==> os.now < old(os.NextTime()) + timeout
    ensures os.Ticked()
    ensures Calm(old(os.socks[fd]), |data| + more, true, 0) && Sum(old(os.ticks)) < timeout ==>
      r.IoOk? && Calm(os.socks[fd], more, true, 0)
  {
    hide Calm, Sum, Passable, PollingIn, PollingOut, Sending, Reading, MoveSaid, PollSaid, Later, Passed, Used;
    LaterSelf(os.socks[fd]);
    ghost var start := os.socks[fd];
    NonePassed(start.polls, true, false);
    NoneUsed(start.moves, true, true);
    NoneUsed(start.moves, false, true);
    ghost var good := Calm(start, |data| + more, true, 0) && Sum(os.ticks) < timeout;
    var t := os.Now();
    var deadline := t + timeout;
    var written := 0;
    while written < |data|
      invariant fd in os.socks && os.socks == old(os.socks)[fd := os.socks[fd]]
      invariant 0 <= written <= |data| && os.socks[fd].sent == start.sent + data[..written]
      invariant os.socks[fd].unread == start.unread
      invariant Later(start, os.socks[fd]) && deadline == old(os.NextTime()) + timeout
      invariant Passed(start.polls, os.socks[fd].polls, true, false) && (written > 0 ==> os.now < deadline)
      invariant Used(start.moves, os.socks[fd].moves, true, true)
      invariant os.Ticked()
      invariant good ==> os.Horizon() < deadline && Calm(os.socks[fd], |data| - written + more, true, 0)
      decreases |os.socks[fd].moves| + |os.socks[fd].polls|
    {
      ghost var polls, moves := os.socks[fd].polls, os.socks[fd].moves;
      NoneUsed(moves, false, true);
      UsedOn(start.moves, moves, moves, false, true);
      t := os.Now();
      if t >= deadline {
        return IoTimeout;
      }
      var end, n := WriteTurn(os, fd, data, written, start, more);
      UsedOn(start.moves, moves, os.socks[fd].moves, end.None?, true);
      written := written + n;
      if end.Some? {
        return end.value;
      }
      PassedOn(start.polls, polls, os.socks[fd].polls, true, false, false);
    }
    assert data[..written] == data;
    r := IoOk;
  }

  /** So far nothing has ended this transfer for input. */
  predicate Undisturbed(start: Sock, s: Sock) {
    && Passed(start.polls, s.polls, false, start.readable) && Used(start.moves, s.moves, true, true)
    && (s.readable ==> start.readable)
  }

  lemma NothingDisturbs(s: Sock)
    ensures Undisturbed(s, s)
  {
    NonePassed(s.polls, false, s.readable);
    NoneUsed(s.moves, true, true);
  }

  /** One turn of the loop: a poll(), and a read() when there is input. */
  method ReadTurn(os: Kernel, fd: int, buf: array<Byte>, done: nat, ghost start: Sock, ghost more: nat)
    returns (end: Option<IoResult>, got: nat)
    requires fd in os.socks && done < buf.Length && Later(start, os.socks[fd])
    requires Partly(start.unread, os.socks[fd].unread, buf[..], done) && Undisturbed(start, os.socks[fd])
    modifies os`socks, buf
    ensures fd in os.socks && os.socks == old(os.socks)[fd := os.socks[fd]] && Later(start, os.socks[fd])
    ensures os.socks[fd].sent == old(os.socks[fd]).sent
    ensures done + got <= buf.Length && Partly(start.unread, os.socks[fd].unread, buf[..], done + got)
    ensures |os.socks[fd].moves| + |os.socks[fd].polls| < |old(os.socks[fd]).moves| + |old(os.socks[fd]).polls|
      || end.Some?
    ensures if end.None? then Undisturbed(start, os.socks[fd])
      else Used(start.moves, os.socks[fd].moves, false, true)
    ensures var s := old(os.socks[fd]);
      Calm(s, |s.unread| + 1, false, 0) && |s.unread| < buf.Length - done ==>
        if end.Some? then end.value.IoEof?
        else |os.socks[fd].unread| == |s.unread| - got && Calm(os.socks[fd], |os.socks[fd].unread| + 1, false, 0)
    ensures end.Some? ==>
              && got == 0 && !end.value.IoOk?
              && (PollEnds(start, os.socks[fd], end.value) || MoveSaid(start, end.value, os.socks[fd].unread == []))
    ensures var left := buf.Length - done;
      Calm(old(os.socks[fd]), left + more, false, 0) && |old(os.socks[fd]).unread| >= left ==>
        end.None? && Calm(os.socks[fd], left - got + more, false, 0)
  {
    hide Partly, Filled, Calm, MoveSaid, PollSaid, Later, Passed, Used, Benign;
    ghost var was, before := os.socks[fd], os.socks[fd].unread;
    NoneUsed(was.moves, true, true);
    NoneUsed(was.moves, false, true);
    UsedOn(start.moves, was.moves, was.moves, false, true);
    var poll, ready := AwaitInput(os, fd, start,
                                  if |before| < buf.Length - done then |before| + 1 else buf.Length - done + more);
    if poll.None? {
      PassedOn(start.polls, was.polls, os.socks[fd].polls, false, start.readable, was.readable);
    }
    if poll.Some? || !ready {
      return poll, 0;
    }
    assert os.socks[fd].unread == before;
    var rc := ReadSome(os, fd, buf, done, start, more);
    UsedOn(start.moves, was.moves, os.socks[fd].moves, ReadsOn(rc, true), true);
    match rc {
      case ReadError(errno) =>
        return if errno.Interrupted? || errno.WouldBlock? then None else Some(ResultFromErrno(errno)), 0;
      case Chunk(chunk) =>
        return if chunk == [] then Some(IoEof) else None, |chunk|;
    }
  }

  method ReadAllFor(os: Kernel, fd: int, buf: array<Byte>, timeout: nat, ghost more: nat) returns (r: IoResult)
    requires fd in os.socks
    modifies os`socks, os`now, os`ticks, buf
    ensures fd in os.socks && os.socks == old(os.socks)[fd := os.socks[fd]]
    ensures Filled(old(os.socks[fd]).unread, os.socks[fd].unread, buf[..], r.IoOk?)
    ensures os.socks[fd].sent == old(os.socks[fd]).sent
    ensures TimedReason(old(os.socks[fd]), os.socks[fd], r, os.socks[fd].unread == [], os.now >= old(os.now) + timeout)
    ensures Later(old(os.socks[fd]), os.socks[fd])
    ensures r.IoOk? ==> Passed(old(os.socks[fd]).polls, os.socks[fd].polls, false, old(os.socks[fd]).readable)
    ensures r.IoOk? && buf.Length > 0 ==> os.now < old(os.NextTime()) + timeout
    ensures os.Ticked()
    ensures (Calm(old(os.socks[fd]), buf.Length + more, false, 0) && Sum(old(os.ticks)) < timeout
             && |old(os.socks[fd]).unread| >= buf.Length) ==>
              r.IoOk? && Calm(os.socks[fd], more, false, 0)
    ensures Used(old(os.socks[fd]).moves, os.socks[fd].moves, r.IoOk?, true)
    ensures var s := old(os.socks[fd]);
      Calm(s, |s.unread| + 1, false, 0) && Sum(old(os.ticks)) < timeout && |s.unread| < buf.Length ==> r.IoEof?
  {
    hide Partly, Filled, Calm, Sum, Passable, PollingIn, PollingOut, Sending, Reading, MoveSaid, PollSaid, Later,
      Passed, Used;
    LaterSelf(os.socks[fd]);
    ghost var start := os.socks[fd];
    NothingDisturbs(start);
    ghost var short :=
      Calm(start, |start.unread| + 1, false, 0) && Sum(os.ticks) < timeout && |start.unread| < buf.Length;
    ghost var good :=
      Calm(start, buf.Length + more, false, 0) && Sum(os.ticks) < timeout && |start.unread| >= buf.Length;
    var t := os.Now();
    var deadline := t + timeout;
    var done := 0;
    NothingRead(start.unread, buf[..]);
    while done < buf.Length
      invariant fd in os.socks && os.socks == old(os.socks)[fd := os.socks[fd]]
      invariant 0 <= done <= buf.Length && Partly(start.unread, os.socks[fd].unread, buf[..], done)
      invariant os.socks[fd].sent == start.sent
      invariant Later(start, os.socks[fd]) && deadline == old(os.NextTime()) + timeout
      invariant Undisturbed(start, os.socks[fd]) && (done > 0 ==> os.now < deadline)
      invariant os.Ticked()
      invariant short ==>
        && os.Horizon() < deadline && |os.socks[fd].unread| < buf.Length - done
        && Calm(os.socks[fd], |os.socks[fd].unread| + 1, false, 0)
      invariant good ==> os.Horizon() < deadline && Calm(os.socks[fd], buf.Length - done + more, false, 0)
      decreases |os.socks[fd].moves| + |os.socks[fd].polls|
    {
      PartlyFilled(start.unread, os.socks[fd].unread, buf[..], done);
      t := os.Now();
      if t >= deadline {
        EndsUsed(start.moves, os.socks[fd].moves);
        return IoTimeout;
      }
      var end, got := ReadTurn(os, fd, buf, done, start, more);
      done := done + got;
      PartlyFilled(start.unread, os.socks[fd].unread, buf[..], done);
      if end.Some? {
        return end.value;
      }
    }
    PartlyFilled(start.unread, os.socks[fd].unread, buf[..], done);
    r := IoOk;
  }

  // ---- Packets ----------------------------------------------------------------------------

  /** How a send ends: the frame is on the wire, or building it threw, or the transport failed inside it. */
  datatype Delivery = Delivered | Unbuildable | Torn(io: IoResult)

  /** How a receive ends: a packet, a protocol_error, or a transport failure. */
  datatype Reception = Arrived(packet: Packet) | Malformed | Failed(io: IoResult)

  /** What a delivery leaves on the stream. */
  predicate Sends(before: Octets, after: Octets, frame: Option<Octets>, r: Delivery) {
    match frame
    case None => r == Unbuildable && after == before
    case Some(bytes) => !r.Unbuildable? && (r.Torn? ==> !r.io.IoOk?) && Wrote(before, after, bytes, r.Delivered?)
  }

  /** The bytes taken off the stream are exactly those the outcome is made of. */
  predicate Understood(sig: Ty, before: Octets, after: Octets, r: Reception) {
    && |after| <= |before|
    && var used := before[..|before| - |after|];
    && before == used + after
    && match r
       case Arrived(p) => IsFrame(sig, used, p)
       case Malformed => Receive(sig, used).Bad?
       case Failed(io) => Receive(sig, used) == Incomplete && !io.IoOk?
  }

  /** A packet that arrived is the one at the front of the stream; a malformed one stands there as well. */
  lemma PacketTaken(sig: Ty, before: Octets, after: Octets, r: Reception)
    requires Understood(sig, before, after, r)
    ensures r.Arrived? ==> Receive(sig, before) == Got(r.packet, after)
    ensures r.Malformed? ==> Receive(sig, before).Bad?
  {
    var used := before[..|before| - |after|];
    ReceiveExtends(sig, used, after);
    assert [] + after == after;
  }

  /** Receiving from a stream of whole frames gives the packets of the frames in order; it is never malformed. */
  lemma NextOfStream(sig: Ty, frames: seq<Octets>, ps: seq<Packet>, after: Octets, r: Reception)
    requires AreFrames(sig, frames, ps) && Understood(sig, Concat(frames), after, r)
    ensures !r.Malformed?
    ensures r.Arrived? ==> ps != [] && r.packet == ps[0] && after == Concat(frames[1..])
  {
    PacketTaken(sig, Concat(frames), after, r);
    if frames != [] {
      ReceiveExtends(sig, frames[0], Concat(frames[1..]));
      assert [] + Concat(frames[1..]) == Concat(frames[1..]);
    }
  }

  /** The bytes of the header's padding, whatever they are. */
  datatype Padding = Padding(gap: Octets, tail: Octets) {
    predicate Valid() {
      |gap| == 4 && |tail| == 4
    }
  }

  lemma WroteBoth(before: Octets, mid: Octets, after: Octets, a: Octets, b: Octets, ok: bool)
    requires Wrote(before, mid, a, true) && Wrote(mid, after, b, ok)
    ensures Wrote(before, after, a + b, ok)
  {
    var k := |after| - |mid|;
    assert (a + b)[..|a| + k] == a + b[..k];
    assert before + a + b[..k] == before + (a + b[..k]);
  }

  lemma WroteFirst(before: Octets, after: Octets, a: Octets, b: Octets)
    requires Wrote(before, after, a, false)
    ensures Wrote(before, after, a + b, false)
  {
    var k := |after| - |before|;
    assert (a + b)[..k] == a[..k];
  }

  /** The kernel lets `size` more bytes through in this direction, with or without a deadline. */
  predicate Lets(s: Sock, size: nat, timeout: nat, out: bool) {
    if timeout == 0 then Benign(s.moves, size) else Calm(s, size, out, 0)
  }

  /** And it does so before any deadline `timeout` away. */
  predicate Willing(s: Sock, ticks: seq<nat>, size: nat, timeout: nat, out: bool) {
    Lets(s, size, timeout, out) && (timeout != 0 ==> Sum(ticks) < timeout)
  }

  class PacketManager {
    const os: Kernel
    const fd: int
    const sig: Ty

    constructor (os: Kernel, fd: int, sig: Ty)
      ensures this.os == os && this.fd == fd && this.sig == sig
    {
      this.os, this.fd, this.sig := os, fd, sig;
    }

    /** `write_all` or, with a timeout, `write_all_for`. */
    method Write(data: Octets, timeout: nat, deadline: nat, ghost more: nat) returns (r: IoResult)
      requires fd in os.socks
      modifies os`socks, os`now, os`ticks
      ensures fd in os.socks && os.socks == old(os.socks)[fd := os.socks[fd]] && os.Ticked()
      ensures (Lets(old(os.socks[fd]), |data| + more, timeout, true)
               && (timeout != 0 ==> old(os.Horizon()) < deadline)) ==>
                r.IoOk? && Lets(os.socks[fd], more, timeout, true)
      ensures Wrote(old(os.socks[fd]).sent, os.socks[fd].sent, data, r.IoOk?)
      ensures os.socks[fd].unread == old(os.socks[fd]).unread
      ensures Later(old(os.socks[fd]), os.socks[fd])
      ensures Why(old(os.socks[fd]), os.socks[fd], r, timeout != 0, false, os.now >= deadline)
    {
      hide Benign, Calm, Sum, Later, MoveSaid, PollSaid;
      if timeout != 0 {
        var t := os.Now();
        r := WriteAllFor(os, fd, data, if t >= deadline then 0 else deadline - t, more);
      } else {
        r := WriteAll(os, fd, data, more);
      }
    }

    method Read(buf: array<Byte>, timeout: nat, deadline: nat, ghost more: nat) returns (r: IoResult)
      requires fd in os.socks
      modifies os`socks, os`now, os`ticks, buf
      ensures fd in os.socks && os.socks == old(os.socks)[fd := os.socks[fd]] && os.Ticked()
      ensures (Lets(old(os.socks[fd]), buf.Length + more, timeout, false) && |old(os.socks[fd]).unread| >= buf.Length
               && (timeout != 0 ==> old(os.Horizon()) < deadline)) ==>
                r.IoOk? && Lets(os.socks[fd], more, timeout, false)
      ensures Filled(old(os.socks[fd]).unread, os.socks[fd].unread, buf[..], r.IoOk?)
      ensures os.socks[fd].sent == old(os.socks[fd]).sent
      ensures Later(old(os.socks[fd]), os.socks[fd])
      ensures Why(old(os.socks[fd]), os.socks[fd], r, timeout != 0, os.socks[fd].unread == [], os.now >= deadline)
    {
      hide Benign, Calm, Sum, Later, MoveSaid, PollSaid;
      if timeout != 0 {
        var t := os.Now();
        r := ReadAllFor(os, fd, buf, if t >= deadline then 0 else deadline - t, more);
      } else {
        r := ReadAll(os, fd, buf, more);
      }
    }

    /** A payload is refused only for its size or its kind. On a willing stream nothing is torn, and what it takes
        afterwards it takes for `more`. */
    method SendPacket(kind: Byte, payloadKind: Byte, taskId: U64, flags: U16, payload: Octets, timeout: nat,
                      pad: Padding, ghost more: nat)
      returns (r: Delivery)
      requires pad.Valid() && fd in os.socks
      modifies os`socks, os`now, os`ticks
      ensures fd in os.socks && os.socks == old(os.socks)[fd := os.socks[fd]]
      ensures os.socks[fd].unread == old(os.socks[fd]).unread
      ensures Sends(old(os.socks[fd]).sent, os.socks[fd].sent,
                    MakeFrame(kind, payloadKind, taskId, flags, Some(payload), pad.gap, pad.tail), r)
      ensures r.Unbuildable? ==> os.socks == old(os.socks)
      ensures r.Unbuildable? <==> |payload| > 0xffff_ffff || !Acceptable(kind, payloadKind, |payload|)
      ensures r.Torn? ==>
        && Why(old(os.socks[fd]), os.socks[fd], r.io, timeout != 0, false, os.now >= old(os.now) + timeout)
        && Later(old(os.socks[fd]), os.socks[fd])
      ensures os.Ticked()
      ensures var size := HEADER_SIZE + |payload| + more;
        !r.Unbuildable? && Willing(old(os.socks[fd]), old(os.ticks), size, timeout, true) ==>
          r.Delivered? && Willing(os.socks[fd], os.ticks, more, timeout, true)
    {
      hide Lets, HeaderBytes, Sum, Why, Later;
      AcceptableIff(kind, payloadKind, taskId, flags, |payload|);
      var header := MakeHeader(kind, payloadKind, taskId, flags, |payload|);
      if header.None? {
        return Unbuildable;
      }
      var bytes := HeaderBytes(header.value, pad.gap, pad.tail);
      ghost var start, before := os.socks[fd], os.socks[fd].sent;
      var t := os.Now();
      var deadline := t + timeout;
      LaterSelf(start);
      var io := Write(bytes, timeout, deadline, |payload| + more);
      WhyEarlier(start, start, os.socks[fd], io, timeout != 0, false, os.now >= deadline,
        os.now >= old(os.now) + timeout);
      if !io.IoOk? {
        WroteFirst(before, os.socks[fd].sent, bytes, payload);
        return Torn(io);
      }
      if payload != [] {
        ghost var halfway, mid := os.socks[fd], os.socks[fd].sent;
        io := Write(payload, timeout, deadline, more);
        WroteBoth(before, mid, os.socks[fd].sent, bytes, payload, io.IoOk?);
        WhyEarlier(start, halfway, os.socks[fd], io, timeout != 0, false, os.now >= deadline,
                   os.now >= old(os.now) + timeout);
        LaterTwice(start, halfway, os.socks[fd]);
        if !io.IoOk? {
          return Torn(io);
        }
      } else {
        assert bytes + payload == bytes;
      }
      r := Delivered;
    }

    /** send_run, send_ok, send_stop, send_exception and send_protocol_error: serialize, then send. */
    method Send(kind: Byte, taskId: U64, flags: U16, payload: Payload, timeout: nat, pad: Padding, ghost more: nat)
      returns (r: Delivery)
      requires WellFormed(sig) && PayloadTyped(sig, payload) && pad.Valid() && fd in os.socks
      modifies os`socks, os`now, os`ticks
      ensures fd in os.socks && os.socks == old(os.socks)[fd := os.socks[fd]]
      ensures os.socks[fd].unread == old(os.socks[fd]).unread
      ensures Sends(old(os.socks[fd]).sent, os.socks[fd].sent,
        FrameOf(sig, kind, taskId, flags, payload, pad.gap, pad.tail), r)
      ensures r.Unbuildable? ==> os.socks == old(os.socks)
      ensures r.Unbuildable? <==> Load(sig, payload) > 0xffff_ffff || !KindTakes(kind, payload)
      ensures r.Torn? ==>
        && Why(old(os.socks[fd]), os.socks[fd], r.io, timeout != 0, false, os.now >= old(os.now) + timeout)
        && Later(old(os.socks[fd]), os.socks[fd])
      ensures os.Ticked()
      ensures var frame := FrameOf(sig, kind, taskId, flags, payload, pad.gap, pad.tail);
        frame.Some? && Willing(old(os.socks[fd]), old(os.ticks), |frame.value| + more, timeout, true) ==>
          r.Delivered? && Willing(os.socks[fd], os.ticks, more, timeout, true)
    {
      hide Willing, HeaderBytes, Why, Later, Load, KindTakes, Acceptable;
      FrameBuildableIff(sig, kind, taskId, flags, payload, pad.gap, pad.tail);
      var bytes: Option<Octets>;
      match payload {
        case NoPayload => bytes := Some([]);
        case Args(v) => bytes := CodecIo.Serialize(sig, v);
        case Text(v) => bytes := CodecIo.Serialize(TEXT, v);
      }
      if bytes.None? {
        return Unbuildable;
      }
      r := SendPacket(kind, PayloadKindOf(payload), taskId, flags, bytes.value, timeout, pad, more);
    }

    method Decode(header: Header, bytes: Octets) returns (payload: Option<Payload>)
      requires WellFormed(sig)
      ensures payload == DecodePayload(sig, header, bytes)
    {
      if header.payloadKind == PAYLOAD_NONE {
        return Some(NoPayload);
      }
      if header.payloadKind == PAYLOAD_TUPLE {
        var v := CodecIo.Deserialize(sig, bytes);
        return if v.Some? then Some(Args(v.value)) else None;
      }
      var v := CodecIo.Deserialize(TEXT, bytes);
      payload := if v.Some? then Some(Text(v.value)) else None;
    }

    /** The payload, if the header announces one. */
    method ReadPayload(count: nat, timeout: nat, deadline: nat, ghost more: nat)
        returns (r: IoResult, body: array<Byte>)
      requires fd in os.socks
      modifies os`socks, os`now, os`ticks
      ensures fresh(body) && body.Length == count
      ensures fd in os.socks && os.socks == old(os.socks)[fd := os.socks[fd]] && os.Ticked()
      ensures (Lets(old(os.socks[fd]), count + more, timeout, false) && |old(os.socks[fd]).unread| >= count
               && (timeout != 0 ==> old(os.Horizon()) < deadline)) ==>
                r.IoOk? && Lets(os.socks[fd], more, timeout, false)
      ensures Filled(old(os.socks[fd]).unread, os.socks[fd].unread, body[..], r.IoOk?)
      ensures os.socks[fd].sent == old(os.socks[fd]).sent
      ensures Later(old(os.socks[fd]), os.socks[fd])
      ensures Why(old(os.socks[fd]), os.socks[fd], r, timeout != 0, os.socks[fd].unread == [], os.now >= deadline)
    {
      hide Lets, Later, MoveSaid, PollSaid, Sum;
      LaterSelf(os.socks[fd]);
      body := new Byte[count];
      r := IoOk;
      if count != 0 {
        r := Read(body, timeout, deadline, more);
      }
    }

    /** A whole packet, or the reason why there is none; without a timeout it blocks. A packet that stands in a willing
        stream arrives, and what the stream gives afterwards it gives for `more`. */
    method ReceivePacket(timeout: nat, ghost more: nat) returns (r: Reception)
      requires WellFormed(sig) && fd in os.socks
      modifies os`socks, os`now, os`ticks
      ensures fd in os.socks && os.socks == old(os.socks)[fd := os.socks[fd]]
      ensures os.socks[fd].sent == old(os.socks[fd]).sent
      ensures Understood(sig, old(os.socks[fd]).unread, os.socks[fd].unread, r)
      ensures r.Failed? ==>
        && Why(old(os.socks[fd]), os.socks[fd], r.io, timeout != 0, os.socks[fd].unread == [],
               os.now >= old(os.now) + timeout)
        && Later(old(os.socks[fd]), os.socks[fd])
      ensures os.Ticked()
      ensures var before := old(os.socks[fd]).unread;
        Receive(sig, before).Bad? && Willing(old(os.socks[fd]), old(os.ticks), |before| + more, timeout, false) ==>
          r.Malformed?
      ensures var before := old(os.socks[fd]).unread;
        Receive(sig, before).Got? ==>
          var size := |before| - |Receive(sig, before).rest|;
          Willing(old(os.socks[fd]), old(os.ticks), size + more, timeout, false) ==>
            r.Arrived? && Willing(os.socks[fd], os.ticks, more, timeout, false)
    {
      hide Receive, ParseHeader, ValidHeader, DecodePayload, WellFormed, Understood, Filled, Lets, Sum, Why, Later;
      ghost var start, before := os.socks[fd], os.socks[fd].unread;
      ghost var size := FrontSize(sig, before);
      GotSize(sig, before);
      var t := os.Now();
      var deadline := t + timeout;
      var head := new Byte[HEADER_SIZE];
      LaterSelf(start);
      var io := Read(head, timeout, deadline, size - HEADER_SIZE + more);
      WhyEarlier(start, start, os.socks[fd], io, timeout != 0, os.socks[fd].unread == [], os.now >= deadline,
                 os.now >= old(os.now) + timeout);
      if !io.IoOk? {
        ShortHead(sig, before, os.socks[fd].unread, head[..], io);
        return Failed(io);
      }
      ghost var halfway, mid := os.socks[fd], os.socks[fd].unread;
      var header := ParseHeader(head[..]);
      if !ValidHeader(header) {
        BadHead(sig, before, mid, head[..]);
        PacketTaken(sig, before, mid, Malformed);
        return Malformed;
      }
      HeadFilled(before, mid, head[..]);
      var body;
      io, body := ReadPayload(header.payloadSize, timeout, deadline,
                              Beyond(size, HEADER_SIZE + header.payloadSize) + more);
      WhyEarlier(start, halfway, os.socks[fd], io, timeout != 0, os.socks[fd].unread == [], os.now >= deadline,
                 os.now >= old(os.now) + timeout);
      LaterTwice(start, halfway, os.socks[fd]);
      PartialFrame(sig, before, mid, os.socks[fd].unread, head[..], body[..], io);
      if !io.IoOk? {
        return Failed(io);
      }
      var payload := Decode(header, body[..]);
      WholeFrame(sig, before, os.socks[fd].unread, head[..], body[..]);
      r := if payload.None? then Malformed else Arrived(Packet(header, payload.value));
      PacketTaken(sig, before, os.socks[fd].unread, r);
    }
  }

  lemma ShortHead(sig: Ty, before: Octets, after: Octets, head: Octets, io: IoResult)
    requires |head| == HEADER_SIZE && Filled(before, after, head, false) && !io.IoOk?
    ensures Understood(sig, before, after, Failed(io))
  {}

  lemma BadHead(sig: Ty, before: Octets, after: Octets, head: Octets)
    requires |head| == HEADER_SIZE && !ValidHeader(ParseHeader(head)) && Filled(before, after, head, true)
    ensures Understood(sig, before, after, Malformed)
  {
    assert head[..|head|] == head;
    assert before[..|before| - |after|] == head;
  }

  /** How much of the stream is enough to decide what stands at its front. */
  function FrontSize(sig: Ty, s: Octets): (n: nat)
    ensures Receive(sig, s).Bad? ==> n == |s|
    ensures n >= HEADER_SIZE
  {
    match Receive(sig, s)
    case Got(_, rest) => FrameLength(sig, s); |s| - |rest|
    case Bad => |s|
    case Incomplete => HEADER_SIZE
  }

  function Beyond(size: nat, used: nat): nat {
    if size <= used then 0 else size - used
  }

  /** How much of the stream the packet at its front takes up. */
  lemma GotSize(sig: Ty, s: Octets)
    ensures Receive(sig, s).Got? ==>
      var size := |s| - |Receive(sig, s).rest|;
      HEADER_SIZE <= size <= |s| && size == HEADER_SIZE + ParseHeader(s[..HEADER_SIZE]).payloadSize
    ensures Receive(sig, s).Bad? ==>
      |s| >= HEADER_SIZE &&
        var h := ParseHeader(s[..HEADER_SIZE]); ValidHeader(h) ==> |s| >= HEADER_SIZE + h.payloadSize
  {
    hide ParseHeader, ValidHeader, DecodePayload;
  }

  lemma HeadFilled(before: Octets, after: Octets, head: Octets)
    requires Filled(before, after, head, true)
    ensures |head| <= |before| && before[..|head|] == head && |after| == |before| - |head|
  {
    assert head[..|head|] == head;
  }

  lemma PartialFrame(sig: Ty, before: Octets, mid: Octets, after: Octets, head: Octets, body: Octets, io: IoResult)
    requires |head| == HEADER_SIZE && ValidHeader(ParseHeader(head)) && |body| == ParseHeader(head).payloadSize
    requires Filled(before, mid, head, true) && Filled(mid, after, body, io.IoOk?)
    ensures !io.IoOk? ==> Understood(sig, before, after, Failed(io))
    ensures io.IoOk? ==> before == head + body + after
  {
    var k := |mid| - |after|;
    assert head[..|head|] == head;
    assert before == head + (body[..k] + after) == head + body[..k] + after;
    var used := head + body[..k];
    assert before[..|before| - |after|] == used && used[..HEADER_SIZE] == head;
    if io.IoOk? {
      assert body[..k] == body;
    }
  }

  lemma WholeFrame(sig: Ty, before: Octets, after: Octets, head: Octets, body: Octets)
    requires |head| == HEADER_SIZE && ValidHeader(ParseHeader(head)) && |body| == ParseHeader(head).payloadSize
    requires before == head + body + after
    ensures match DecodePayload(sig, ParseHeader(head), body)
      case None => Understood(sig, before, after, Malformed)
      case Some(payload) => Understood(sig, before, after, Arrived(Packet(ParseHeader(head), payload)))
  {
    var used := head + body;
    assert before[..|before| - |after|] == used && used[..HEADER_SIZE] == head;
    assert used[HEADER_SIZE..] == body && used[HEADER_SIZE..HEADER_SIZE + |body|] == body;
    assert used[HEADER_SIZE + |body|..] == [];
  }
}
