/** The scheduler over a fixed set of workers, method by method, against the bookkeeping functions of PoolSpec. */
module WorkerPools {
  import opened Bytes
  import opened Codec
  import opened WorkerSpec
  import opened PoolSpec
  import opened Kernels
  import opened Workers
  import opened Weights
  import Frame
  import T = Transport

  // ---- Who owns what ----------------------------------------------------------------------

  /** The non-negative entries of `ids` are pairwise distinct and are exactly the `keys`. */
  predicate Holds(keys: set<int>, ids: seq<int>) {
    && (forall k | k in keys :: k >= 0 && k in ids)
    && (forall i | 0 <= i < |ids| && ids[i] >= 0 :: ids[i] in keys)
    && (forall i, j | 0 <= i < j < |ids| && ids[i] >= 0 :: ids[i] != ids[j])
  }

  function Only(x: int): set<int> {
    if x >= 0 then {x} else {}
  }

  /** One owner gives up its entry for a fresh one, or for none. */
  lemma HoldsSwap(keys: set<int>, keys': set<int>, ids: seq<int>, i: nat, x: int)
    requires Holds(keys, ids) && i < |ids| && (x >= 0 ==> x == ids[i] || x !in keys)
    requires keys' == (keys - Only(ids[i])) + Only(x)
    ensures Holds(keys', ids[i := x])
  {
    var ids' := ids[i := x];
    forall k | k in keys'
      ensures k >= 0 && k in ids'
    {
      if k == x {
        assert ids'[i] == x;
      } else {
        var j :| 0 <= j < |ids| && ids[j] == k;
        assert ids'[j] == k;
      }
    }
  }

  function Snapshots(ws: seq<Worker>): (r: seq<Snap>)
    reads ws
    ensures |r| == |ws| && forall i | 0 <= i < |ws| :: r[i] == Snap(ws[i].pid, ws[i].fd, ws[i].state, ws[i].current)
  {
    if ws == [] then [] else [Snap(ws[0].pid, ws[0].fd, ws[0].state, ws[0].current)] + Snapshots(ws[1..])
  }

  /** The workers' task timeouts. */
  function LimitsOf(ws: seq<Worker>): (r: seq<Option<nat>>)
    ensures |r| == |ws| && forall i | 0 <= i < |ws| :: r[i] == ws[i].timeouts.task
  {
    if ws == [] then [] else [ws[0].timeouts.task] + LimitsOf(ws[1..])
  }

  ghost function SightsOf(ws: seq<Worker>, procs: map<int, Proc>, socks: map<int, Sock>): (r: seq<Sight>)
    reads ws
    ensures |r| == |ws| && forall k | 0 <= k < |ws| :: r[k] == ws[k].Sighted(procs, socks)
  {
    if ws == [] then [] else [ws[0].Sighted(procs, socks)] + SightsOf(ws[1..], procs, socks)
  }

  function PidsOf(ws: seq<Snap>): seq<int> {
    seq(|ws|, i requires 0 <= i < |ws| => ws[i].pid)
  }

  function FdsOf(ws: seq<Snap>): seq<int> {
    seq(|ws|, i requires 0 <= i < |ws| => ws[i].fd)
  }

  function SlotOf(w: Snap): Slot {
    match w.state
    case Stopped => Slot.Stopped
    case Idle => Slot.Idle
    case Busy => if w.current.Some? then Slot.Busy(w.current.value.id, w.current.value.args) else Slot.Broken
    case Broken => Slot.Broken
  }

  function SlotsOf(ws: seq<Snap>): seq<Slot> {
    seq(|ws|, i requires 0 <= i < |ws| => SlotOf(ws[i]))
  }

  /** Every slot is lawful, and the live children and open descriptors are exactly those of the slots:
      nothing leaks and nothing is shared. */
  predicate Consistent(sig: Ty, ws: seq<Snap>, procs: set<int>, socks: set<int>) {
    && (forall w | w in ws :: Lawful(sig, w, procs, socks))
    && Holds(procs, PidsOf(ws)) && Holds(socks, FdsOf(ws))
  }

  /** What an operation on one slot may do to the kernel's live children and open descriptors. */
  predicate Exchange(was: Snap, now: Snap, procs: set<int>, procs': set<int>, socks: set<int>, socks': set<int>) {
    && procs' == (procs - Only(was.pid)) + Only(now.pid) && (now.pid >= 0 ==> now.pid == was.pid || now.pid !in procs)
    && socks' == (socks - Only(was.fd)) + Only(now.fd) && (now.fd >= 0 ==> now.fd == was.fd || now.fd !in socks)
  }

  /** An operation on one slot leaves the others alone. */
  lemma SlotChanged(sig: Ty, ws: seq<Snap>, i: nat, now: Snap,
                    procs: set<int>, procs': set<int>, socks: set<int>, socks': set<int>)
    requires Consistent(sig, ws, procs, socks) && i < |ws| && Lawful(sig, now, procs', socks')
    requires Exchange(ws[i], now, procs, procs', socks, socks')
    ensures Consistent(sig, ws[i := now], procs', socks')
    ensures SlotsOf(ws[i := now]) == SlotsOf(ws)[i := SlotOf(now)]
  {
    hide Kernel.Reckoned, HasType;
    var ws' := ws[i := now];
    assert PidsOf(ws') == PidsOf(ws)[i := now.pid] && FdsOf(ws') == FdsOf(ws)[i := now.fd];
    HoldsSwap(procs, procs', PidsOf(ws), i, now.pid);
    HoldsSwap(socks, socks', FdsOf(ws), i, now.fd);
    forall j | 0 <= j < |ws|
      ensures Lawful(sig, ws'[j], procs', socks')
    {
      if j != i {
        assert ws[j] in ws;
        StillOwned(procs', PidsOf(ws'), j);
        StillOwned(socks', FdsOf(ws'), j);
      }
    }
  }

  lemma StillOwned(keys: set<int>, ids: seq<int>, j: nat)
    requires Holds(keys, ids) && j < |ids|
    ensures ids[j] >= 0 ==> ids[j] in keys
  {}

  lemma Owned(sig: Ty, ws: seq<Snap>, i: nat, procs: set<int>, socks: set<int>)
    requires Consistent(sig, ws, procs, socks) && i < |ws|
    ensures Lawful(sig, ws[i], procs, socks)
    ensures Exchange(ws[i], ws[i], procs, procs, socks, socks)
    ensures forall fd :: fd in socks ==> fd >= 0
  {
    assert ws[i] in ws;
    StillOwned(procs, PidsOf(ws), i);
    StillOwned(socks, FdsOf(ws), i);
  }

  /** What a collecting operation found: nothing, a result, or a result lost to the dispatch_error of a failed
      restart. */
  datatype Collection = Nothing | Gathered(result: TaskResult) | RestartFailed

  /** How wait_one() ends: a result, one of its exceptions, or blocking for want of work. */
  datatype WaitOutcome = Result(result: TaskResult) | StoppedPool | DrainedPool | DispatchError | PollFailure | Blocks

  // ---- What one call does to the tasks in play ---------------------------------------------

  ghost predicate SamePlay(p: Pool, q: Pool) {
    q.submitted == p.submitted && q.nextId == p.nextId && q.finished == p.finished && forall x ::
      InPlay(q, x) == InPlay(p, x)
  }

  /** `r` answers a task in play and takes it out. */
  ghost predicate Takes(p: Pool, q: Pool, r: TaskResult) {
    q.submitted == p.submitted && q.nextId == p.nextId && forall x ::
      InPlay(q, x) + Bit((r.taskId, r.args) == x) == InPlay(p, x)
  }

  /** At most one task goes out of play. */
  ghost predicate LosesOne(p: Pool, q: Pool) {
    && q.submitted == p.submitted && q.nextId == p.nextId
    && exists id, args :: forall x :: InPlay(q, x) <= InPlay(p, x) <= InPlay(q, x) + Bit((id, args) == x)
  }

  /** What the outcome of a call says about the pool before and after it. */
  ghost predicate Explains(p: Pool, q: Pool, o: WaitOutcome, state: PoolState) {
    match o
    case Result(r) => !state.Halted? && q.finished == p.finished + 1 && Takes(p, q, r)
    case DispatchError => !state.Halted? && LosesOne(p, q)
    case StoppedPool => state.Halted? && SamePlay(p, q)
    case DrainedPool => state.Finishing? && SamePlay(p, q) && !HasWork(q)
    case Blocks => state.Accepting? && SamePlay(p, q) && !HasWork(q)
    case PollFailure => !state.Halted? && SamePlay(p, q)
  }

  lemma SameItself(p: Pool)
    ensures SamePlay(p, p)
  {}

  lemma PassSummary(o: Pool, p: Pool, how: seq<Attempt>, budget: nat)
    requires |how| == |p.slots| && SamePlay(o, p) && forall t | t in p.pending :: t.attempts < budget
    ensures var pass := Dispatch(p, 0, how, budget);
      if pass.threw then LosesOne(o, pass.pool)
      else
        && SamePlay(o, pass.pool)
        && (Rank(pass.pool, budget) < Rank(p, budget) ||
            (pass.pool == p && NothingToDispatch(p)))
  {
    hide Dispatch, InPlay;
    var pass := Dispatch(p, 0, how, budget);
    forall x
      ensures InPlay(pass.pool, x) + LostIn(pass, x) == InPlay(p, x)
    {
      DispatchKeeps(p, 0, how, budget, x);
    }
    DispatchKeeps(p, 0, how, budget, (0, NoneV));
    if pass.threw {
      var id := if pass.lost.Some? then pass.lost.value.id else 0;
      var args := if pass.lost.Some? then pass.lost.value.args else NoneV;
      assert forall x :: InPlay(pass.pool, x) <= InPlay(o, x) <= InPlay(pass.pool, x) + Bit((id, args) == x);
    } else {
      DispatchRank(p, 0, how, budget);
    }
  }

  lemma CollectSummary(o: Pool, p: Pool, q: Pool, c: Collection, i: nat, reusable: bool)
    requires SamePlay(o, p)
    requires match c
      case Nothing => q == p
      case Gathered(r) =>
        i < |p.slots| && p.slots[i] == Slot.Busy(r.taskId, r.args) && q == PoolSpec.Collected(p, i, reusable, true)
      case RestartFailed => i < |p.slots| && p.slots[i].Busy? && q == PoolSpec.Collected(p, i, false, false)
    ensures c.Gathered? ==> Takes(o, q, c.result) && q.finished == o.finished + 1
    ensures c.RestartFailed? ==> LosesOne(o, q)
  {
    hide InPlay;
    if !c.Nothing? {
      var id, args := p.slots[i].id, p.slots[i].args;
      forall x
        ensures InPlay(q, x) + Bit((id, args) == x) == InPlay(o, x)
      {
        CollectedTakes(p, i, c.Gathered? && reusable, c.Gathered?, x);
      }
      assert forall x :: InPlay(q, x) <= InPlay(o, x) <= InPlay(q, x) + Bit((id, args) == x);
    }
  }

  /** No two slots share a child or a descriptor. */
  lemma Separate(sig: Ty, ws: seq<Snap>, procs: set<int>, socks: set<int>, i: nat, k: nat)
    requires Consistent(sig, ws, procs, socks) && i < |ws| && k < |ws| && i != k
    ensures ws[k].pid >= 0 ==> ws[k].pid != ws[i].pid
    ensures ws[k].fd >= 0 ==> ws[k].fd != ws[i].fd
    ensures forall x | x in procs || x in socks :: x >= 0
  {
    hide Lawful;
    var pids, fds := PidsOf(ws), FdsOf(ws);
    assert forall k | 0 <= k < |ws| :: pids[k] == ws[k].pid && fds[k] == ws[k].fd;
  }

  lemma Elsewhere<T>(m: map<int, T>, m': map<int, T>, ks: set<int>)
    requires m - ks == m' - ks
    ensures forall x | x !in ks :: (x in m <==> x in m') && (x in m ==> m[x] == m'[x])
  {
    forall x | x !in ks
      ensures (x in m <==> x in m') && (x in m ==> m[x] == m'[x])
    {
      assert x in m <==> x in m - ks;
      assert x in m' <==> x in m' - ks;
      assert x in m ==> (m - ks)[x] == m[x];
      assert x in m' ==> (m' - ks)[x] == m'[x];
    }
  }

  predicate Recent(deadline: Option<nat>, limit: Option<nat>, since: nat) {
    deadline.Some? ==> limit.Some? && deadline.value >= since + limit.value
  }

  /** Every task in flight was in flight before, or its deadline is a whole task timeout away from `since`. */
  ghost predicate Aged(was: seq<Snap>, now: seq<Snap>, limits: seq<Option<nat>>, since: nat) {
    && |was| == |now| == |limits|
    && forall i | 0 <= i < |now| && now[i].state.Busy? && now[i].current.Some? ::
         (was[i].state.Busy? && now[i].current == was[i].current)
           || Recent(now[i].current.value.deadline, limits[i], since)
  }

  lemma AgedTwice(a: seq<Snap>, b: seq<Snap>, c: seq<Snap>, limits: seq<Option<nat>>, n: nat, m: nat)
    requires Aged(a, b, limits, n) && Aged(b, c, limits, m) && n <= m
    ensures Aged(a, c, limits, n)
  {}

  /** The time that the task of this result had: it was in flight at `since` and its deadline has passed, or a whole
      task timeout has gone by since. */
  predicate Late(was: seq<Snap>, limits: seq<Option<nat>>, i: nat, r: TaskResult, since: nat, now: nat) {
    && i < |was| == |limits|
    && (|| (was[i].state.Busy? && was[i].current.Some? && was[i].current.value.id == r.taskId
            && Overdue(was[i].current.value, now))
        || (limits[i].Some? && since + limits[i].value <= now))
  }

  lemma FairIsLate(was: seq<Snap>, mid: seq<Snap>, limits: seq<Option<nat>>, i: nat, v: Sight, r: TaskResult,
                   since: nat, between: nat, now: nat)
    requires Aged(was, mid, limits, since) && i < |mid| && v.snap == mid[i] && FairTimeout(v, between, now, r)
    ensures r.status.Timeout? ==> Late(was, limits, i, r, since, now)
  {
    hide CheckDeadline;
  }

  /** A timeout is reported only for a task that had its time. */
  ghost predicate InTime(was: seq<Snap>, limits: seq<Option<nat>>, i: nat, o: WaitOutcome, since: nat, now: nat) {
    o.Result? && o.result.status.Timeout? ==> Late(was, limits, i, o.result, since, now)
  }

  lemma InTimeBefore(was: seq<Snap>, mid: seq<Snap>, limits: seq<Option<nat>>, i: nat, o: WaitOutcome,
                     since: nat, between: nat, now: nat)
    requires Aged(was, mid, limits, since) && InTime(mid, limits, i, o, between, now) && since <= between
    ensures InTime(was, limits, i, o, since, now)
  {}

  lemma AgedSelf(a: seq<Snap>, limits: seq<Option<nat>>, n: nat)
    requires |a| == |limits|
    ensures Aged(a, a, limits, n)
  {}

  lemma AgedOne(a: seq<Snap>, i: nat, x: Snap, limits: seq<Option<nat>>, n: nat)
    requires |a| == |limits| && i < |a|
    requires x.state.Busy? && x.current.Some? ==>
      (x.current == a[i].current && a[i].state.Busy?) || Recent(x.current.value.deadline, limits[i], n)
    ensures Aged(a, a[i := x], limits, n)
  {}

  /** None of the first `k` answers of the script starts a child. */
  ghost predicate AllRefused(spawns: seq<Option<Forked>>, k: nat, procs: map<int, Proc>, socks: map<int, Sock>) {
    forall j | 0 <= j < k && j < |spawns| :: !CanStart(spawns[j], procs, socks)
  }

  /** The child and the descriptor are those of answer number `k`. */
  predicate Became(spawns: seq<Option<Forked>>, k: int, pid: int, fd: int) {
    0 <= k < |spawns| && spawns[k].Some? && spawns[k].value.pid == pid && spawns[k].value.fd == fd
  }

  /** Answer number `n` started a child, and nothing else changed. */
  predicate Started(spawns: seq<Option<Forked>>, n: nat, pid: int, fd: int, procs: map<int, Proc>,
                    procs': map<int, Proc>, socks: map<int, Sock>, socks': map<int, Sock>) {
    && n > 0 && Became(spawns, n - 1, pid, fd)
    && pid !in procs && procs' - {pid} == procs && procs'.Keys == procs.Keys + {pid}
    && fd !in socks && socks' - {fd} == socks && socks'.Keys == socks.Keys + {fd}
    && socks'[fd] == spawns[n - 1].value.sock.(sent := [])
  }

  /** The last `budget` answers that were used up started no child. */
  ghost predicate Refused(was: seq<Option<Forked>>, now: seq<Option<Forked>>, budget: nat, procs: map<int, Proc>,
                          socks: map<int, Sock>) {
    exists n: nat :: now == After(was, n + budget) && AllRefused(After(was, n), budget, procs, socks)
  }

  /** What a call of the pool leaves behind besides the slots. */
  datatype Moment = Moment(spawns: seq<Option<Forked>>, closed: seq<Octets>, ticks: seq<nat>, procs: map<int, Proc>,
                           socks: map<int, Sock>)

  /** Fork answers are used up in order, descriptors are closed one after the other, and the clock ticks on. */
  ghost predicate Leads(m: Moment, m': Moment) {
    (exists n: nat :: m'.spawns == After(m.spawns, n)) && m.closed <= m'.closed && Sum(m'.ticks) <= Sum(m.ticks)
  }

  lemma LeadsSelf(m: Moment)
    ensures Leads(m, m)
  {
    assert m.spawns == After(m.spawns, 0);
  }

  lemma LeadsOn(a: Moment, b: Moment, c: Moment)
    requires Leads(a, b) && Leads(b, c)
    ensures Leads(a, c)
  {
    var n: nat :| b.spawns == After(a.spawns, n);
    var k: nat :| c.spawns == After(b.spawns, k);
    AfterAfter(a.spawns, n, k);
    assert c.spawns == After(a.spawns, n + k);
  }

  lemma RefusedSince(a: Moment, b: Moment, now: seq<Option<Forked>>, budget: nat, procs: map<int, Proc>,
                     socks: map<int, Sock>)
    requires Leads(a, b) && Refused(b.spawns, now, budget, procs, socks)
    ensures Refused(a.spawns, now, budget, procs, socks)
  {
    hide AllRefused, After, Sum, Refused;
    var n: nat :| b.spawns == After(a.spawns, n);
    RefusedLater(a.spawns, n, now, budget, procs, socks);
  }

  lemma RefusedLater(spawns: seq<Option<Forked>>, n: nat, now: seq<Option<Forked>>, budget: nat, procs: map<int, Proc>,
                     socks: map<int, Sock>)
    requires Refused(After(spawns, n), now, budget, procs, socks)
    ensures Refused(spawns, now, budget, procs, socks)
  {
    hide AllRefused, After;
    var k: nat :| now == After(After(spawns, n), k + budget)
      && AllRefused(After(After(spawns, n), k), budget, procs, socks);
    AfterAfter(spawns, n, k + budget);
    AfterAfter(spawns, n, k);
    var j: nat := n + k;
    assert now == After(spawns, j + budget) && AllRefused(After(spawns, j), budget, procs, socks);
  }

  /** What the child of a slot has been given. */
  function SentTo(v: Sight): Octets {
    if v.sock.Some? then v.sock.value.sent else []
  }

  /** Its descriptor was closed after a part of a frame. */
  ghost predicate Tore(sig: Ty, v: Sight, closed: seq<Octets>, closed': seq<Octets>) {
    exists n :: |closed| <= n < |closed'| && SentTo(v) <= closed'[n]
      && Frame.Receive(sig, closed'[n][|SentTo(v)|..]) == Frame.Incomplete
  }

  /** A worker as far as it never changes, and what it makes of a task. */
  ghost predicate Gave(w: Worker, v: Sight, v': Sight, t: Task)
    requires HasType(w.sig, t.args) && w.pad.Valid() && t.id < SIZE_LIMIT
  {
    var request := w.Request(t.id, t.args);
    && v'.snap.state.Busy? && v'.snap.current.Some?
    && v'.snap.current.value.id == t.id && v'.snap.current.value.args == t.args
    && request.Some? && v'.sock.Some? && v'.sock.value.sent == SentTo(v) + request.value
  }

  /** The socket of this slot, or the one of some child to be forked, does not let the request through. */
  ghost predicate Unwelcome(w: Worker, v: Sight, m: Moment, args: Val)
    requires HasType(w.sig, args)
  {
    if v.sock.Some? then !w.Welcome(args, v.sock.value, m.ticks)
    else
      exists j :: 0 <= j < |m.spawns| && m.spawns[j].Some?
        && !w.Welcome(args, m.spawns[j].value.sock.(sent := []), m.ticks)
  }

  /** What an attempt at a slot stands for: accepted, when the child has been given exactly the request; not to be
      serialized, when the packet would be too large, and then nothing was written; failed, when the socket did not
      let it through and was closed after a part of it. A restart that failed, or a start, means that all forks were
      refused. */
  ghost predicate Evidence(w: Worker, budget: nat, v: Sight, v': Sight, t: Task, a: Attempt, m: Moment, m': Moment) {
    && HasType(w.sig, t.args) && w.pad.Valid() && t.id < SIZE_LIMIT
    && match a
       case Took => Gave(w, v, v', t)
       case CannotSerialize => Weight(w.sig, t.args) > 0xffff_ffff && SentTo(v') == SentTo(v)
       case Failed(_, respawned) =>
         && Tore(w.sig, v, m.closed, m'.closed) && Unwelcome(w, v, m, t.args)
         && (!respawned ==> Refused(m.spawns, m'.spawns, budget, m'.procs, m'.socks))
       case SpawnFailed => v.snap.state.Stopped? && Refused(m.spawns, m'.spawns, budget, m'.procs, m'.socks)
  }

  /** Evidence of one turn is evidence for a longer stretch. What was refused must have been the last. */
  lemma EvidenceKept(w: Worker, budget: nat, v: Sight, v': Sight, t: Task, a: Attempt, m0: Moment, m: Moment,
                     m': Moment, m'': Moment)
    requires Evidence(w, budget, v, v', t, a, m, m') && Leads(m0, m) && Leads(m, m') && Leads(m', m'')
    requires GoesOn(a) || m'' == m'
    ensures Evidence(w, budget, v, v', t, a, m0, m'')
  {
    hide Refused, Frame.Receive, Weight, HasType, Gave, AllRefused;
    if a.Failed? {
      ToreKept(w.sig, v, m0, m, m', m'');
      UnwelcomeKept(w, v, m0, m, t.args);
      if !a.respawned {
        RefusedSince(m0, m, m'.spawns, budget, m'.procs, m'.socks);
      }
    } else if a.SpawnFailed? {
      RefusedSince(m0, m, m'.spawns, budget, m'.procs, m'.socks);
    }
  }

  lemma ToreKept(sig: Ty, v: Sight, m0: Moment, m: Moment, m': Moment, m'': Moment)
    requires Tore(sig, v, m.closed, m'.closed) && m0.closed <= m.closed && m'.closed <= m''.closed
    ensures Tore(sig, v, m0.closed, m''.closed)
  {
    hide Frame.Receive;
    var n :| |m.closed| <= n < |m'.closed| && SentTo(v) <= m'.closed[n]
      && Frame.Receive(sig, m'.closed[n][|SentTo(v)|..]) == Frame.Incomplete;
    assert m''.closed[n] == m'.closed[n];
  }

  lemma UnwelcomeKept(w: Worker, v: Sight, m0: Moment, m: Moment, args: Val)
    requires HasType(w.sig, args) && Unwelcome(w, v, m, args) && Leads(m0, m)
    ensures Unwelcome(w, v, m0, args)
  {
    hide HasType, Weight;
    if v.sock.Some? {
      if w.Welcome(args, v.sock.value, m0.ticks) {
        WelcomeBefore(w, args, v.sock.value, m0.ticks, m.ticks);
      }
    } else {
      var j :| 0 <= j < |m.spawns| && m.spawns[j].Some?
        && !w.Welcome(args, m.spawns[j].value.sock.(sent := []), m.ticks);
      var n: nat :| m.spawns == After(m0.spawns, n);
      assert m0.spawns[n + j] == m.spawns[j];
      if w.Welcome(args, m.spawns[j].value.sock.(sent := []), m0.ticks) {
        WelcomeBefore(w, args, m.spawns[j].value.sock.(sent := []), m0.ticks, m.ticks);
      }
    }
  }

  lemma WelcomeBefore(w: Worker, args: Val, s: Sock, before: seq<nat>, ticks: seq<nat>)
    requires HasType(w.sig, args) && w.Welcome(args, s, before) && Sum(ticks) <= Sum(before)
    ensures w.Welcome(args, s, ticks)
  {
    hide Weight, HasType, T.Lets;
  }

  /** Forks that were asked for are gone. */
  lemma UsedUp(m: Moment, m': Moment, tried: nat)
    requires m'.spawns == After(m.spawns, tried) && m'.closed == m.closed && m'.ticks == m.ticks
    ensures Leads(m, m')
  {}

  lemma NoStart(w: Worker, budget: nat, v: Sight, v': Sight, t: Task, m: Moment, m': Moment)
    requires HasType(w.sig, t.args) && w.pad.Valid() && t.id < SIZE_LIMIT && v.snap.state.Stopped?
    requires m'.spawns == After(m.spawns, budget) && AllRefused(m.spawns, budget, m'.procs, m'.socks)
    ensures Evidence(w, budget, v, v', t, SpawnFailed, m, m')
  {
    hide HasType, Gave, Tore, Unwelcome, Weight, AllRefused;
    AfterTail(m.spawns, 0);
    assert m'.spawns == After(m.spawns, 0 + budget);
  }

  /** The slot was started by fork answer number `tried`. */
  predicate StartedBy(v: Sight, mid: Sight, m0: Moment, m: Moment, tried: nat) {
    && v.sock.None? && 0 < tried <= |m0.spawns| && m0.spawns[tried - 1].Some? && m.ticks == m0.ticks
    && mid.sock == Some(m0.spawns[tried - 1].value.sock.(sent := []))
  }

  /** A turn at a slot that was started first. */
  lemma EvidenceOfStart(w: Worker, budget: nat, v: Sight, mid: Sight, v': Sight, t: Task, a: Attempt, m0: Moment,
                        m: Moment, m': Moment, tried: nat)
    requires Evidence(w, budget, mid, v', t, a, m, m') && !a.SpawnFailed? && Leads(m0, m) && Leads(m, m')
    requires StartedBy(v, mid, m0, m, tried)
    ensures Evidence(w, budget, v, v', t, a, m0, m')
  {
    hide Refused, Tore, Unwelcome, Weight, HasType, Leads, Worker.Request, T.Padding.Valid;
    assert SentTo(v) == SentTo(mid);
    if a.Failed? {
      LeadsCloses(m0, m);
      ToreStarted(w.sig, v, mid, m0, m, m');
      UnwelcomeStarted(w, v, mid, m0, m, t.args, tried - 1);
      if !a.respawned {
        RefusedSince(m0, m, m'.spawns, budget, m'.procs, m'.socks);
      }
    }
  }

  lemma LeadsCloses(m: Moment, m': Moment)
    requires Leads(m, m')
    ensures m.closed <= m'.closed && Sum(m'.ticks) <= Sum(m.ticks)
  {}

  lemma ToreStarted(sig: Ty, v: Sight, mid: Sight, m0: Moment, m: Moment, m': Moment)
    requires Tore(sig, mid, m.closed, m'.closed) && m0.closed <= m.closed && SentTo(v) == SentTo(mid)
    ensures Tore(sig, v, m0.closed, m'.closed)
  {
    hide Frame.Receive;
  }

  lemma UnwelcomeStarted(w: Worker, v: Sight, mid: Sight, m0: Moment, m: Moment, args: Val, j: nat)
    requires HasType(w.sig, args) && Unwelcome(w, mid, m, args) && m.ticks == m0.ticks && v.sock.None?
    requires j < |m0.spawns| && m0.spawns[j].Some? && mid.sock == Some(m0.spawns[j].value.sock.(sent := []))
    ensures Unwelcome(w, v, m0, args)
  {
    hide HasType, Weight, Worker.Welcome;
  }

  lemma TornOff(w: Worker, v: Sight, closed: seq<Octets>, closed': seq<Octets>)
    requires w.Abandoned(closed, closed', SentTo(v))
    ensures Tore(w.sig, v, closed, closed') && closed <= closed'
  {
    hide Frame.Receive;
  }

  lemma NotWelcomed(w: Worker, v: Sight, m: Moment, args: Val)
    requires HasType(w.sig, args) && v.sock.Some? && !w.Welcome(args, v.sock.value, m.ticks)
    ensures Unwelcome(w, v, m, args)
  {
    hide HasType, Worker.Welcome;
  }

  lemma Given(w: Worker, v: Sight, v': Sight, t: Task)
    requires HasType(w.sig, t.args) && w.pad.Valid() && t.id < SIZE_LIMIT
    requires v'.snap.state.Busy? && v'.snap.current.Some? && v'.snap.current.value.id == t.id
    requires v'.snap.current.value.args == t.args && v.sock.Some? && v'.sock.Some? && w.Request(t.id, t.args).Some?
    requires v'.sock.value.sent == v.sock.value.sent + w.Request(t.id, t.args).value
    ensures Gave(w, v, v', t)
  {
    hide HasType, Worker.Request;
  }

  /** What agrees without some keys agrees without more. */
  lemma LessKeys<T>(m: map<int, T>, m': map<int, T>, ks: set<int>, more: set<int>)
    requires m - ks == m' - ks && ks <= more
    ensures m - more == m' - more
  {
    Elsewhere(m, m', ks);
    forall x
      ensures (x in m - more <==> x in m' - more) && (x in m - more ==> (m - more)[x] == (m' - more)[x])
    {
      assert x !in more ==> x !in ks;
    }
  }

  lemma SameSights(sights: seq<Sight>, i: nat)
    requires i < |sights|
    ensures sights[i := sights[i]] == sights
  {}

  lemma WelcomeTaken(w: Worker, budget: nat, v: Sight, v': Sight, t: Task, a: Attempt, m: Moment, m': Moment)
    requires Evidence(w, budget, v, v', t, a, m, m') && v.snap.state.Idle? && v.sock.Some?
    requires HasType(w.sig, t.args) && w.Welcome(t.args, v.sock.value, m.ticks)
    ensures a.Took?
  {
    hide Tore, Gave, Refused, HasType, Weight, T.Willing;
  }

  /** Time has passed, and nothing was forked. */
  lemma Ticking(m: Moment, m': Moment)
    requires m'.spawns == m.spawns && m.closed <= m'.closed && Sum(m'.ticks) <= Sum(m.ticks)
    ensures Leads(m, m')
  {
    hide Sum;
    assert m'.spawns == After(m.spawns, 0);
  }

  // ---- Looking at the slots -----------------------------------------------------------------

  /** The deadline check has been at the first `n` slots. */
  function SomeLooked(sights: seq<Sight>, at: nat, n: nat): (r: seq<Sight>)
    requires n <= |sights|
  {
    seq(|sights|, k requires 0 <= k < |sights| => if k < n then AfterLook(sights[k], at) else sights[k])
  }

  function AllLooked(sights: seq<Sight>, at: nat): seq<Sight> {
    SomeLooked(sights, at, |sights|)
  }

  lemma NoneLooked(sights: seq<Sight>, at: nat)
    ensures SomeLooked(sights, at, 0) == sights
  {
    hide AfterLook;
  }

  lemma OneMoreLooked(sights: seq<Sight>, at: nat, i: nat)
    requires i < |sights|
    ensures SomeLooked(sights, at, i)[i] == sights[i]
    ensures SomeLooked(sights, at, i + 1) == SomeLooked(sights, at, i)[i := AfterLook(sights[i], at)]
  {
    hide AfterLook;
  }

  /** A check before every deadline changes nothing. */
  lemma NothingDue(sights: seq<Sight>, at: nat)
    requires forall k | 0 <= k < |sights| :: !Due(sights[k], at)
    ensures AllLooked(sights, at) == sights && forall k | 0 <= k < |sights| :: PassedOver(sights[k], at)
  {
    hide Due, Looked, CheckDeadline;
  }

  /** The descriptors that owe a response, in slot order. */
  function BusyFds(sights: seq<Sight>): (fds: seq<int>)
    ensures forall v | v in sights && v.snap.state.Busy? :: v.snap.fd in fds
    ensures fds == [] <==> forall k | 0 <= k < |sights| :: !sights[k].snap.state.Busy?
  {
    if sights == [] then []
    else (if sights[0].snap.state.Busy? then [sights[0].snap.fd] else []) + BusyFds(sights[1..])
  }

  lemma NoFds()
    ensures BusyFds([]) == []
  {}

  lemma FirstFd(sights: seq<Sight>)
    requires sights != []
    ensures BusyFds(sights) == (if sights[0].snap.state.Busy? then [sights[0].snap.fd] else []) + BusyFds(sights[1..])
  {}

  lemma {:induction false} BusyFdsNext(sights: seq<Sight>, i: nat)
    requires i < |sights|
    ensures BusyFds(sights[..i + 1]) ==
      BusyFds(sights[..i]) + if sights[i].snap.state.Busy? then [sights[i].snap.fd] else []
  {
    hide BusyFds;
    NoFds();
    FirstFd(sights[..i + 1]);
    if i == 0 {
      assert sights[..1][1..] == [] && sights[..0] == [];
    } else {
      FirstFd(sights[..i]);
      BusyFdsNext(sights[1..], i - 1);
      assert sights[..i + 1][1..] == sights[1..][..i] && sights[..i][1..] == sights[1..][..i - 1];
    }
  }

  /** poll() reports this slot: what it names, or one with input pending. */
  predicate Reported(shown: set<int>, v: Sight) {
    v.snap.state.Busy? && (v.snap.fd in shown || (v.sock.Some? && v.sock.value.readable))
  }

  /** The first slot that poll() reports, or the number of slots. */
  function FirstShown(shown: set<int>, sights: seq<Sight>): (k: nat)
    ensures k <= |sights| && (k < |sights| ==> Reported(shown, sights[k]))
    ensures forall j | 0 <= j < k :: !Reported(shown, sights[j])
  {
    if sights == [] || Reported(shown, sights[0]) then 0 else 1 + FirstShown(shown, sights[1..])
  }

  lemma {:induction false} FirstSelected(shown: set<int>, sights: seq<Sight>, chosen: set<int>)
    requires forall v | v in sights && v.snap.state.Busy? :: v.snap.fd in chosen <==> Reported(shown, v)
    ensures var k, ready := FirstShown(shown, sights), Select(BusyFds(sights), chosen);
      if k == |sights| then ready == [] else ready != [] && ready[0] == sights[k].snap.fd
  {
    hide Reported, Select, BusyFds;
    if sights == [] {
      NoneSelected(chosen);
    } else {
      var v := sights[0];
      assert v in sights && forall u | u in sights[1..] :: u in sights;
      FirstSelected(shown, sights[1..], chosen);
      OneSelected(sights, chosen);
      NotReported(shown, v);
    }
  }

  lemma NoneSelected(chosen: set<int>)
    ensures Select(BusyFds([]), chosen) == []
  {
    NoFds();
  }

  lemma OneSelected(sights: seq<Sight>, chosen: set<int>)
    requires sights != []
    ensures var v := sights[0];
      Select(BusyFds(sights), chosen) ==
        (if v.snap.state.Busy? && v.snap.fd in chosen then [v.snap.fd] else []) + Select(BusyFds(sights[1..]), chosen)
  {
    hide BusyFds;
    var v, later := sights[0], BusyFds(sights[1..]);
    FirstFd(sights);
    if v.snap.state.Busy? {
      assert ([v.snap.fd] + later)[1..] == later;
    } else {
      assert [] + later == later;
    }
  }

  lemma NotReported(shown: set<int>, v: Sight)
    ensures Reported(shown, v) ==> v.snap.state.Busy?
  {}

  /** What one call of receive() went by: the time of its deadline check, and what came over the socket, if it looked
      there. */
  datatype Account = Account(at: nat, reception: Option<T.Reception>)

  /** What is to be seen of the slots and of the kernel at one moment. */
  datatype Scene = Scene(sights: seq<Sight>, m: Moment, now: nat)

  /** What a round of wait_one() went by: how its dispatch pass went and what that left behind, the time of the deadline
      checks, and what receive() went by, if it came to that. */
  datatype Trace = Trace(how: seq<Attempt>, seen: Scene, at: nat, account: Account)

  /** poll() failed in this call, and was not just interrupted. */
  ghost predicate PollFailed(rounds: seq<Round>, rounds': seq<Round>) {
    exists n: nat ::
      && rounds' == After(rounds, n + 1) && NextRound(After(rounds, n)).RoundFails?
      && !NextRound(After(rounds, n)).errno.Interrupted?
  }

  lemma ExpiredTask(v: Sight, at: nat, r: TaskResult)
    requires Expires(v, at, r)
    ensures SlotOf(v.snap) == Slot.Busy(r.taskId, r.args)
  {
    hide CheckDeadline;
  }

  lemma ExpiredNotPassed(v: Sight, at: nat, r: TaskResult)
    requires Expires(v, at, r)
    ensures !PassedOver(v, at)
  {
    hide CheckDeadline;
  }

  lemma OneMoreRefused(spawns: seq<Option<Forked>>, k: nat, procs: map<int, Proc>, socks: map<int, Sock>)
    ensures AllRefused(spawns, 0, procs, socks)
    ensures AllRefused(spawns, k, procs, socks) && (k >= |spawns| || !CanStart(spawns[k], procs, socks)) ==>
      AllRefused(spawns, k + 1, procs, socks)
  {}

  class WorkerPool {
    const os: Kernel
    const sig: Ty
    const budget: nat
    const workers: seq<Worker>
    var pending: seq<Task>
    var nextId: nat
    var submitted: nat
    var finished: nat
    var state: PoolState

    /** Slots that have not been started yet. */
    constructor (os: Kernel, sig: Ty, attempts: nat, workers: seq<Worker>)
      requires os.procs == map[] && os.socks == map[] && WellFormed(sig) && workers != []
      requires forall i, j | 0 <= i < j < |workers| :: workers[i] != workers[j]
      requires forall w | w in workers :: w.os == os && w.sig == sig && w.Valid() && w.state.Stopped?
      ensures Valid() && this.os == os && this.sig == sig && this.workers == workers
      ensures this.budget == if attempts == 0 then 1 else attempts
      ensures View() == Pool([], seq(|workers|, i => Slot.Stopped), 1, 0, 0) && state.Accepting?
    {
      this.os, this.sig, this.workers := os, sig, workers;
      budget := if attempts == 0 then 1 else attempts;
      pending, nextId, submitted, finished, state := [], 1, 0, 0, Accepting;
      new;
      forall i | 0 <= i < |workers|
        ensures workers[i].os == os && workers[i].sig == sig && WellFormed(sig) && workers[i].pad.Valid()
        ensures Snapshots(workers)[i] == Snap(-1, -1, WorkerState.Stopped, None)
      {
        assert workers[i] in workers;
      }
      assert SlotsOf(Snapshots(workers)) == seq(|workers|, i => Slot.Stopped);
    }

    /** The slots are distinct objects over the same kernel. */
    ghost predicate Built() {
      && budget >= 1 && workers != [] && WellFormed(sig)
      && (forall i, j | 0 <= i < j < |workers| :: workers[i] != workers[j])
      && (forall w | w in workers :: w.os == os && w.sig == sig && w.pad.Valid())
    }

    ghost predicate QueueOk()
      reads this
    {
      && 1 <= nextId <= SIZE_LIMIT
      && forall t | t in pending :: t.id < nextId && HasType(sig, t.args) && t.attempts < budget
    }

    ghost predicate Valid()
      reads this, os, workers
    {
      Built() && QueueOk() && os.Reckoned() && Consistent(sig, Snapshots(workers), os.procs.Keys, os.socks.Keys)
    }

    ghost function Slots(): (r: seq<Slot>)
      reads workers
      ensures |r| == |workers|
    {
      SlotsOf(Snapshots(workers))
    }

    /** The bookkeeping as a value. */
    ghost function View(): Pool
      reads this, workers
    {
      Pool(pending, Slots(), nextId, submitted, finished)
    }

    lemma HasSlots()
      requires Valid()
      ensures workers != [] && View().slots != []
    {}

    lemma AttemptsLeftOver()
      requires Valid()
      ensures forall t | t in View().pending :: t.attempts < budget
    {
      hide Consistent, HasType;
    }

    /** Worker `i` can be used on its own. */
    lemma Usable(i: nat)
      requires Valid() && i < |workers|
      ensures workers[i].Valid() && workers[i].os == os && workers[i].sig == sig
      ensures Slots()[i] == SlotOf(workers[i].Snapshot())
    {
      hide Holds, HasType;
      Owned(sig, Snapshots(workers), i, os.procs.Keys, os.socks.Keys);
      assert workers[i] in workers;
    }

    /** After an operation on worker `i` alone the pool is consistent again, with that one slot changed. */
    twostate lemma Updated(i: nat)
      requires old(Valid()) && QueueOk() && i < |workers|
      requires forall w | w in workers && w != workers[i] :: unchanged(w)
      requires workers[i].Valid()
      requires Exchange(old(workers[i].Snapshot()), workers[i].Snapshot(),
                        old(os.procs.Keys), os.procs.Keys, old(os.socks.Keys), os.socks.Keys)
      ensures Valid() && Slots() == old(Slots())[i := SlotOf(workers[i].Snapshot())]
    {
      hide Holds, HasType, Exchange, Lawful, WellFormed, Consistent, SlotsOf, SlotOf, Snapshots, QueueOk;
      assert workers[i] in workers;
      OneSnapshot(i);
      SlotChanged(sig, old(Snapshots(workers)), i, workers[i].Snapshot(),
                  old(os.procs.Keys), os.procs.Keys, old(os.socks.Keys), os.socks.Keys);
    }

    /** An operation on worker `i` that starts no task, or one with a whole task timeout. */
    twostate lemma AgedAt(i: nat)
      requires Built() && i < |workers| && forall w | w in workers && w != workers[i] :: unchanged(w)
      requires os.now >= old(os.now)
      requires var w := workers[i];
        w.state.Busy? && w.current.Some? ==>
          (w.current == old(w.current) && old(w.state.Busy?))
          || Recent(w.current.value.deadline, w.timeouts.task, old(os.now))
      ensures AllAged()
    {
      hide WellFormed, Snapshots;
      OneSnapshot(i);
      AgedOne(old(Snapshots(workers)), i, workers[i].Snapshot(), LimitsOf(workers), old(os.now));
    }

    twostate lemma OneSnapshot(i: nat)
      requires Built() && i < |workers| && forall w | w in workers && w != workers[i] :: unchanged(w)
      ensures Snapshots(workers) == old(Snapshots(workers))[i := workers[i].Snapshot()]
    {
      hide WellFormed;
      forall j | 0 <= j < |workers| && j != i
        ensures Snapshots(workers)[j] == old(Snapshots(workers))[j]
      {
        assert workers[j] in workers && workers[j] != workers[i];
      }
    }

    // ---- Deadlines --------------------------------------------------------------------------

    /** Time has passed, and the tasks in flight are as old as `Aged` says. */
    twostate predicate AllAged()
      reads this, os, workers
    {
      os.now >= old(os.now) && Aged(old(Snapshots(workers)), Snapshots(workers), LimitsOf(workers), old(os.now))
    }

    /** Slot `k` with its socket and its child. */
    ghost function SightOf(k: nat): Sight
      requires k < |workers|
      reads workers[k], os`procs, os`socks
    {
      workers[k].Sighted(os.procs, os.socks)
    }

    ghost function Here(): Moment
      reads os
    {
      Moment(os.spawns, os.closed, os.ticks, os.procs, os.socks)
    }

    ghost function Sights(): (r: seq<Sight>)
      reads workers, os`procs, os`socks
      ensures |r| == |workers| && forall k | 0 <= k < |workers| :: r[k] == SightOf(k)
    {
      SightsOf(workers, os.procs, os.socks)
    }

    lemma SnapsSeen()
      requires Valid()
      ensures forall k | 0 <= k < |workers| ::
        Sights()[k].snap == Snapshots(workers)[k] && Slots()[k] == SlotOf(Sights()[k].snap)
    {
      hide Kernel.Reckoned, WellFormed, Holds, Consistent, QueueOk, HasType, SlotOf;
    }

    /** What is seen of a stopped slot. */
    lemma Unsighted(i: nat)
      requires Valid() && i < |workers| && workers[i].state.Stopped?
      ensures SightOf(i).sock.None?
    {
      hide Kernel.Reckoned, WellFormed, Holds, HasType;
      Owned(sig, Snapshots(workers), i, os.procs.Keys, os.socks.Keys);
      assert -1 !in os.socks.Keys;
    }

    /** An operation on worker `i` that moves at most the entries of its own children and descriptors changes only what
        is seen of this slot. */
    twostate lemma OneSight(i: nat)
      requires old(Valid()) && Valid() && i < |workers| && forall w | w in workers && w != workers[i] :: unchanged(w)
      requires var pids := {old(workers[i].pid), workers[i].pid}; os.procs - pids == old(os.procs) - pids
      requires var fds := {old(workers[i].fd), workers[i].fd}; os.socks - fds == old(os.socks) - fds
      ensures Sights() == old(Sights())[i := SightOf(i)]
    {
      hide Kernel.Reckoned, WellFormed, Holds, Consistent, QueueOk, HasType, Snapshots;
      Elsewhere(old(os.procs), os.procs, {old(workers[i].pid), workers[i].pid});
      Elsewhere(old(os.socks), os.socks, {old(workers[i].fd), workers[i].fd});
      forall k | 0 <= k < |workers| && k != i
        ensures SightOf(k) == old(SightOf(k))
      {
        assert workers[k] in workers && workers[k] != workers[i];
        Separate(sig, Snapshots(workers), os.procs.Keys, os.socks.Keys, i, k);
        Separate(sig, old(Snapshots(workers)), old(os.procs.Keys), old(os.socks.Keys), i, k);
      }
    }

    /** Worker `i` gave up its child and its descriptor. */
    twostate lemma SlotReleased(i: nat)
      requires old(Valid()) && QueueOk() && i < |workers| && forall w | w in workers && w != workers[i] :: unchanged(w)
      requires workers[i].Valid() && workers[i].Released() && os.now >= old(os.now)
      ensures Valid() && AllAged() && Slots() == old(Slots())[i := Slot.Stopped]
      ensures Sights() == old(Sights())[i := SightOf(i)]
    {
      hide Kernel.Reckoned, HasType, WellFormed, Holds, Consistent, Aged, Sights, QueueOk, SightOf, Snapshots, Slots;
      Owned(sig, old(Snapshots(workers)), i, old(os.procs.Keys), old(os.socks.Keys));
      LawfulStates(sig, old(workers[i].Snapshot()), old(os.procs.Keys), old(os.socks.Keys));
      Updated(i);
      AgedAt(i);
      var w := workers[i];
      LessKeys(old(os.procs), os.procs, old(w.Pids()), {old(w.pid), w.pid});
      LessKeys(old(os.socks), os.socks, old(w.Fds()), {old(w.fd), w.fd});
      OneSight(i);
    }

    /** Worker `i` used its child and its descriptor. */
    twostate lemma SlotMoved(i: nat)
      requires old(Valid()) && QueueOk() && i < |workers| && forall w | w in workers && w != workers[i] :: unchanged(w)
      requires workers[i].Valid() && workers[i].pid == old(workers[i].pid) && workers[i].fd == old(workers[i].fd)
      requires !workers[i].state.Stopped? && old(!workers[i].state.Stopped?)
      requires os.procs - {workers[i].pid} == old(os.procs) - {workers[i].pid}
      requires os.socks - {workers[i].fd} == old(os.socks) - {workers[i].fd}
      ensures Valid() && Slots() == old(Slots())[i := SlotOf(workers[i].Snapshot())]
      ensures Sights() == old(Sights())[i := SightOf(i)]
    {
      hide Kernel.Reckoned, HasType, WellFormed, Holds, Consistent, Sights, QueueOk, SightOf, Snapshots, Slots,
        SlotOf;
      var w := workers[i];
      Owned(sig, old(Snapshots(workers)), i, old(os.procs.Keys), old(os.socks.Keys));
      SameKeys(old(os.procs), os.procs, w.pid);
      SameKeys(old(os.socks), os.socks, w.fd);
      assert {old(w.pid), w.pid} == {w.pid} && {old(w.fd), w.fd} == {w.fd};
      Updated(i);
      OneSight(i);
    }

    // ---- Starting slots ---------------------------------------------------------------------

    predicate Alive(i: nat)
      requires i < |workers|
      reads this, workers
    {
      workers[i].pid > 0 && workers[i].fd >= 0 && !workers[i].state.Stopped?
    }

    /** Starts a stopped slot with at most `budget` attempts, the last of which succeeds; `false` stands for the
        dispatch_error when all of them failed. Other slots and what they own are untouched. */
    method SpawnWorkerOrThrow(i: nat) returns (ok: bool, ghost tried: nat)
      requires Valid() && i < |workers|
      modifies workers[i], os`procs, os`log, os`socks, os`spawns
      ensures Valid() && AllAged() && (!ok ==> old(Slots())[i].Stopped?)
      ensures Slots() == old(Slots())[i := if old(Slots())[i].Stopped? && ok then Slot.Idle else old(Slots())[i]]
      ensures tried <= budget && os.spawns == After(old(os.spawns), tried)
      ensures !old(Slots())[i].Stopped? ==> tried == 0 && unchanged(workers[i])
      ensures !ok ==> tried == budget && AllRefused(old(os.spawns), tried, old(os.procs), old(os.socks))
      ensures Sights() == old(Sights())[i := SightOf(i)]
      ensures tried == 0 || !ok ==> os.procs == old(os.procs) && os.socks == old(os.socks)
      ensures old(Slots())[i].Stopped? && ok ==>
        && tried > 0 && AllRefused(old(os.spawns), tried - 1, old(os.procs), old(os.socks))
        && Started(old(os.spawns), tried, workers[i].pid, workers[i].fd, old(os.procs), os.procs, old(os.socks),
                   os.socks)
    {
      hide Kernel.Reckoned, HasType, WellFormed, Holds, Consistent, Slots, SlotsOf, Snapshots, Tail, After,
        AllRefused, Aged, Recent, Sights, SightOf;
      Usable(i);
      LawfulStates(sig, workers[i].Snapshot(), os.procs.Keys, os.socks.Keys);
      tried := 0;
      AfterTail(os.spawns, 0);
      ghost var slots := Slots();
      assert slots[i := slots[i]] == slots;
      if Alive(i) {
        AgedAt(i);
        OneSight(i);
        return true, 0;
      }
      ghost var ws, procs, socks := Snapshots(workers), os.procs.Keys, os.socks.Keys;
      Owned(sig, ws, i, procs, socks);
      ok := false;
      ghost var refused := 0;
      OneMoreRefused(os.spawns, 0, os.procs, os.socks);
      var attempt := 0;
      while attempt < budget && !ok
        invariant workers[i].Valid() && (forall w | w in workers && w != workers[i] :: unchanged(w))
        invariant if ok then workers[i].state.Idle? else workers[i].Snapshot() == old(workers[i].Snapshot())
        invariant Exchange(old(workers[i].Snapshot()), workers[i].Snapshot(), procs, os.procs.Keys, socks,
          os.socks.Keys)
        invariant !ok ==> os.procs == old(os.procs) && os.socks == old(os.socks)
        invariant attempt == tried <= budget && os.spawns == After(old(os.spawns), tried)
        invariant tried == (if ok then refused + 1 else refused)
          && AllRefused(old(os.spawns), refused, old(os.procs), old(os.socks))
        invariant ok ==>
          Started(old(os.spawns), tried, workers[i].pid, workers[i].fd, old(os.procs), os.procs, old(os.socks),
                  os.socks)
      {
        AfterTail(old(os.spawns), tried);
        OneMoreRefused(old(os.spawns), tried, os.procs, os.socks);
        ok := workers[i].Spawn();
        attempt := attempt + 1;
        tried := tried + 1;
        refused := if ok then refused else tried;
      }
      Updated(i);
      AgedAt(i);
      OneSight(i);
    }

    /** `false` stands for the dispatch_error: every fork was refused. */
    method RespawnIfNeeded(i: nat) returns (ok: bool)
      requires Valid() && i < |workers|
      modifies workers[i], os`procs, os`log, os`socks, os`spawns
      ensures Valid() && AllAged() && (!ok ==> old(Slots())[i].Stopped?)
      ensures Sights() == old(Sights())[i := SightOf(i)] && Leads(old(Here()), Here())
      ensures !ok ==> Refused(old(os.spawns), os.spawns, budget, os.procs, os.socks)
      ensures !old(Slots())[i].Stopped? ==>
        os.spawns == old(os.spawns) && os.procs == old(os.procs) && os.socks == old(os.socks)
      ensures Slots() == old(Slots())[i := if old(Slots())[i].Stopped? && ok then Slot.Idle else old(Slots())[i]]
      ensures !old(Slots())[i].Stopped? ==> unchanged(workers[i])
    {
      hide Kernel.Reckoned, HasType, WellFormed, Holds, Consistent, Aged, Recent, Sights, SightOf, AllRefused, Sum;
      Usable(i);
      AfterTail(os.spawns, 0);
      if Alive(i) && !workers[i].state.Broken? {
        AgedAt(i);
        OneSight(i);
        LeadsSelf(Here());
        return true;
      }
      ghost var tried;
      ok, tried := SpawnWorkerOrThrow(i);
      assert os.spawns == After(old(os.spawns), tried);
      if !ok {
        assert os.spawns == After(old(os.spawns), 0 + budget);
      }
    }

    // ---- Submitting -------------------------------------------------------------------------

    /** `None` stands for the exception thrown by a pool that does not accept tasks any more. */
    method Submit(args: Val) returns (id: Option<nat>)
      requires Valid() && HasType(sig, args) && nextId < SIZE_LIMIT
      modifies this
      ensures Valid() && state == old(state)
      ensures id.Some? <==> state.Accepting?
      ensures id.Some? ==> id.value == old(nextId) && View() == Submitted(old(View()), args)
      ensures id.None? ==> View() == old(View())
    {
      hide Kernel.Reckoned, HasType, WellFormed, Holds, Consistent;
      if !state.Accepting? {
        return None;
      }
      id := Some(nextId);
      pending := pending + [Task(nextId, args, 0)];
      nextId := nextId + 1;
      submitted := submitted + 1;
    }

    // ---- Dispatch ---------------------------------------------------------------------------

    /** Every slot that takes part is idle, and its socket lets every pending task through. */
    ghost predicate Ready(sights: seq<Sight>, ts: seq<Task>, ticks: seq<nat>)
      requires |sights| == |workers|
    {
      forall k | 0 <= k < |workers| && !SlotOf(sights[k].snap).Busy? ::
        && sights[k].snap.state.Idle? && sights[k].sock.Some?
        && forall t | t in ts ::
             HasType(workers[k].sig, t.args) && workers[k].Welcome(t.args, sights[k].sock.value, ticks)
    }

    /** For every attempt of a pass there is evidence, and the pass ended with the first that threw. */
    ghost predicate AllEvident(v: Pool, how: seq<Attempt>, was: seq<Sight>, now: seq<Sight>, m: Moment, m': Moment)
      requires |how| <= |v.slots| == |workers| == |was| == |now|
    {
      forall k | 0 <= k < |how| && Tries(v, how, budget, k) ::
        Evidence(workers[k], budget, was[k], now[k], HeadAt(v, how, budget, k), how[k], m, m')
    }

    /** Hands pending tasks to free slots. `threw` stands for the dispatch_error; `how` says what happened at
        each slot that was tried, and there is evidence for it. When every free slot is idle and lets the tasks through,
        the k-th of them has the k-th task. */
    method DispatchPendingTasks() returns (threw: bool, ghost how: seq<Attempt>)
      requires Valid()
      modifies this`pending, workers, os`procs, os`log, os`socks, os`closed, os`spawns, os`now, os`ticks
      ensures Valid() && AllAged() && |how| == |workers| && Leads(old(Here()), Here())
      ensures View() == Dispatch(old(View()), 0, how, budget).pool
        && threw == Dispatch(old(View()), 0, how, budget).threw
      ensures AllEvident(old(View()), how, old(Sights()), Sights(), old(Here()), Here())
      ensures NothingToDispatch(old(View())) ==>
        && !threw && Sights() == old(Sights()) && Here() == old(Here()) && os.now == old(os.now)
        && View() == old(View())
      ensures Ready(old(Sights()), old(pending), old(os.ticks)) ==>
        !threw && Assigned(old(View()), Free(old(View()).slots, 0), View())
    {
      hide Kernel.Reckoned, HasType, WellFormed, Holds, Consistent, QueueOk, Dispatch, DispatchSlot, Aged, Snapshots,
        SlotsOf, Passes, Tries, HeadAt, Evidence, AllEvident, Ready, Assigned, Free, Leads, Sights, LimitsOf, Recent,
        SlotOf, Lawful, HasWork;
      ghost var was, since := Snapshots(workers), os.now;
      AgedSelf(was, LimitsOf(workers), since);
      ghost var v, sights, start := View(), Sights(), Here();
      LeadsSelf(start);
      SnapsSeen();
      NoneEvident(v, sights, start);
      how := [];
      threw := false;
      var i := 0;
      while i < |workers| && pending != [] && !threw
        invariant 0 <= |how| <= |workers| && Valid() && AllAged() && Leads(start, Here())
        invariant View() == Passes(v, how, budget).pool && threw == Passes(v, how, budget).threw
        invariant !threw ==> |how| == i
        invariant AllEvident(v, how, sights, Sights(), start, Here())
        invariant forall k | |how| <= k < |workers| :: Sights()[k] == sights[k]
        invariant NothingToDispatch(old(View())) ==>
          !threw && Sights() == sights && Here() == start && os.now == since && View() == v
      {
        ghost var a;
        ghost var mid, between := Snapshots(workers), os.now;
        ghost var sights', m := Sights(), Here();
        threw, a := DispatchTo(i);
        AgedTwice(was, mid, Snapshots(workers), LimitsOf(workers), since, between);
        PassesNext(v, how, a, budget);
        OneMoreEvident(v, how, a, sights, sights', Sights(), start, m, Here());
        LeadsOn(start, m, Here());
        how := how + [a];
        i := i + 1;
      }
      ghost var rest := seq(|workers| - |how|, k => Took);
      AllPassed(v, how, rest, threw, pending, sights, Sights(), start, Here());
      how := how + rest;
      if Ready(sights, old(pending), start.ticks) {
        ReadyTakes(v, how, sights, Sights(), start, Here());
      }
    }

    lemma NoneEvident(v: Pool, sights: seq<Sight>, m: Moment)
      requires |v.slots| == |workers| == |sights|
      ensures AllEvident(v, [], sights, sights, m, m) && Passes(v, [], budget) == Pass(v, false, None)
    {}

    /** The turn at slot |how|. */
    lemma OneMoreEvident(v: Pool, how: seq<Attempt>, a: Attempt, was: seq<Sight>, mid: seq<Sight>, now: seq<Sight>,
                         m0: Moment, m: Moment, m': Moment)
      requires |how| < |v.slots| == |workers| == |was| == |mid| == |now|
      requires AllEvident(v, how, was, mid, m0, m) && Leads(m0, m) && Leads(m, m')
      requires now == mid[|how| := now[|how|]] && mid[|how|] == was[|how|]
      requires !Passes(v, how, budget).threw
      requires var q := Passes(v, how, budget).pool;
        q.pending != [] && !q.slots[|how|].Busy? ==>
          Evidence(workers[|how|], budget, mid[|how|], now[|how|], q.pending[0], a, m, m')
      ensures AllEvident(v, how + [a], was, now, m0, m')
    {
      hide Evidence, Passes, Leads, Tries, HeadAt;
      forall k | 0 <= k < |how + [a]| && Tries(v, how + [a], budget, k)
        ensures Evidence(workers[k], budget, was[k], now[k], HeadAt(v, how + [a], budget, k), (how + [a])[k], m0, m')
      {
        TriesMore(v, how, a, budget, k);
        if k < |how| {
          NotThrownAt(v, how, k);
          LeadsSelf(m0);
          EvidenceKept(workers[k], budget, was[k], now[k], HeadAt(v, how, budget, k), how[k], m0, m0, m, m');
        } else {
          LeadsSelf(m');
          EvidenceKept(workers[k], budget, was[k], now[k], HeadAt(v, how + [a], budget, k), a, m0, m, m', m');
        }
      }
    }

    /** A pass that has not thrown has not thrown anywhere. */
    lemma {:induction false} NotThrownAt(v: Pool, how: seq<Attempt>, k: nat)
      requires k < |how| <= |v.slots| && Tries(v, how, budget, k) && !Passes(v, how, budget).threw
      ensures GoesOn(how[k])
      decreases |how|
    {
      var n := |how| - 1;
      if k == n {
        assert how[..k + 1] == how;
        ThrowsAt(v, how, budget, k);
      } else {
        assert how[..n][..k] == how[..k];
        NotThrownAt(v, how[..n], k);
      }
    }

    /** The slots that are not reached. */
    lemma AllPassed(v: Pool, how: seq<Attempt>, rest: seq<Attempt>, threw: bool, left: seq<Task>, was: seq<Sight>,
                    now: seq<Sight>, m: Moment, m': Moment)
      requires |how| + |rest| == |v.slots| == |workers| == |was| == |now|
      requires threw == Passes(v, how, budget).threw && left == Passes(v, how, budget).pool.pending
      requires rest == [] || threw || left == []
      requires AllEvident(v, how, was, now, m, m')
      ensures AllEvident(v, how + rest, was, now, m, m')
      ensures Dispatch(v, 0, how + rest, budget) == Passes(v, how, budget)
    {
      hide Evidence, Passes, Tries, HeadAt, Dispatch;
      if rest == [] {
        assert how + rest == how && how[..|how|] == how;
        PassesAreDispatch(v, how, budget, |how|);
        NoSlotsLeft(Passes(v, how, budget).pool, how, budget);
        NotLost(v, how);
      } else {
        PassOver(v, how, rest, budget);
        forall k | 0 <= k < |how + rest| && Tries(v, how + rest, budget, k)
          ensures Evidence(workers[k], budget, was[k], now[k], HeadAt(v, how + rest, budget, k), (how + rest)[k], m, m')
        {
          if k < |how| {
            TriedBefore(v, how, rest, budget, k);
          } else {
            NothingTried(v, how, rest, budget, k);
          }
        }
      }
    }

    lemma NotLost(v: Pool, how: seq<Attempt>)
      requires |how| <= |v.slots|
      ensures var q := Passes(v, how, budget); !q.threw ==> q == Pass(q.pool, false, None)
    {}

    /** Over slots that let every task through nothing but acceptance can have happened. */
    lemma ReadyTakes(v: Pool, how: seq<Attempt>, was: seq<Sight>, now: seq<Sight>, m: Moment, m': Moment)
      requires |how| == |v.slots| == |workers| == |was| == |now| && AllEvident(v, how, was, now, m, m')
      requires Ready(was, v.pending, m.ticks)
      requires forall k | 0 <= k < |workers| :: v.slots[k] == SlotOf(was[k].snap)
      ensures var pass := Dispatch(v, 0, how, budget); !pass.threw && Assigned(v, Free(v.slots, 0), pass.pool)
    {
      hide Passes, Tries, HeadAt, Dispatch, Assigned, Free, AllEvident, Ready;
      TakesAll(v, how, was, now, m, m', |how|);
      TakenInOrder(v, how, budget);
    }

    lemma {:induction false} TakesAll(v: Pool, how: seq<Attempt>, was: seq<Sight>, now: seq<Sight>, m: Moment,
                                      m': Moment, n: nat)
      requires |how| == |v.slots| == |workers| == |was| == |now| && AllEvident(v, how, was, now, m, m')
      requires Ready(was, v.pending, m.ticks) && n <= |how|
      requires forall k | 0 <= k < |workers| :: v.slots[k] == SlotOf(was[k].snap)
      ensures forall k | 0 <= k < n && Tries(v, how, budget, k) :: how[k].Took?
    {
      hide Evidence, AllRefused, Weight, HasType, Passes, AllEvident, Ready, HeadAt, SlotOf;
      if n == 0 {
      } else {
        var k := n - 1;
        TakesAll(v, how, was, now, m, m', k);
        AllTaken(v, how, budget, k);
        if Tries(v, how, budget, k) {
          TakesAt(v, how, was, now, m, m', k);
        }
      }
    }

    lemma TakesAt(v: Pool, how: seq<Attempt>, was: seq<Sight>, now: seq<Sight>, m: Moment, m': Moment, k: nat)
      requires |how| == |v.slots| == |workers| == |was| == |now| && AllEvident(v, how, was, now, m, m')
      requires Ready(was, v.pending, m.ticks) && Tries(v, how, budget, k) && v.slots[k] == SlotOf(was[k].snap)
      requires var q := Passes(v, how[..k], budget).pool;
        TailOf(q.pending, v.pending) && q.slots[k] == v.slots[k]
      ensures how[k].Took?
    {
      hide Evidence, Passes, SlotOf, HasType, Worker.Welcome, TailOf;
      TailShorter(Passes(v, how[..k], budget).pool.pending, v.pending);
      WelcomeTaken(workers[k], budget, was[k], now[k], HeadAt(v, how, budget, k), how[k], m, m');
    }

    /** Before a task is offered to a slot it must be idle. */
    method StartIfStopped(i: nat) returns (ok: bool, ghost tried: nat)
      requires Valid() && i < |workers| && !workers[i].state.Busy?
      modifies workers[i], os`procs, os`log, os`socks, os`spawns
      ensures Valid() && AllAged() && Leads(old(Here()), Here()) && Sights() == old(Sights())[i := SightOf(i)]
      ensures ok ==> workers[i].state.Idle? && Slots() == old(Slots())[i := Slot.Idle]
      ensures ok ==>
        if tried == 0 then SightOf(i) == old(SightOf(i)) && Here() == old(Here())
        else StartedBy(old(SightOf(i)), SightOf(i), old(Here()), Here(), tried)
      ensures !ok ==>
        && Slots() == old(Slots()) && old(workers[i].state.Stopped?)
        && os.spawns == After(old(os.spawns), budget) && AllRefused(old(os.spawns), budget, os.procs, os.socks)
    {
      hide Kernel.Reckoned, HasType, WellFormed, Holds, Consistent, Lawful, Snapshots, SlotsOf, Aged, Leads, Sights,
        Sum, AllRefused, QueueOk;
      Usable(i);
      LawfulStates(sig, workers[i].Snapshot(), os.procs.Keys, os.socks.Keys);
      ghost var slots, m := Slots(), Here();
      assert slots[i := slots[i]] == slots;
      if Alive(i) {
        AgedSelf(Snapshots(workers), LimitsOf(workers), os.now);
        LeadsSelf(m);
        SameSights(Sights(), i);
        return true, 0;
      }
      Unsighted(i);
      ok, tried := SpawnWorkerOrThrow(i);
      UsedUp(m, Here(), tried);
      Usable(i);
      LawfulStates(sig, workers[i].Snapshot(), os.procs.Keys, os.socks.Keys);
    }

    /** One turn of the dispatch loop. */
    method DispatchTo(i: nat) returns (threw: bool, ghost a: Attempt)
      requires Valid() && i < |workers| && pending != []
      modifies this`pending, workers[i], os`procs, os`log, os`socks, os`closed, os`spawns, os`now, os`ticks
      ensures Valid() && AllAged() && Leads(old(Here()), Here()) && Sights() == old(Sights())[i := SightOf(i)]
      ensures View() == (if old(View()).slots[i].Busy? then old(View())
        else DispatchSlot(old(View()), i, a, budget).pool)
      ensures threw == (!old(View()).slots[i].Busy? && DispatchSlot(old(View()), i, a, budget).threw)
      ensures if old(View()).slots[i].Busy? then
        Here() == old(Here()) && os.now == old(os.now) && SightOf(i) == old(SightOf(i))
        else Evidence(workers[i], budget, old(SightOf(i)), SightOf(i), old(pending)[0], a, old(Here()), Here())
    {
      hide Kernel.Reckoned, HasType, WellFormed, Holds, Consistent, Lawful, Snapshots, SlotsOf, DispatchSlot, Aged,
        Evidence, Leads, Sights, Sum, StartedBy, AllRefused;
      ghost var was, since, start, v0 := Snapshots(workers), os.now, Here(), SightOf(i);
      AgedSelf(was, LimitsOf(workers), since);
      LeadsSelf(start);
      threw, a := false, Took;
      Usable(i);
      LawfulStates(sig, workers[i].Snapshot(), os.procs.Keys, os.socks.Keys);
      if workers[i].state.Busy? {
        SameSights(Sights(), i);
        return;
      }
      ghost var v := View();
      Restarted(v, i, budget, SpawnFailed);
      NextTask();
      var started;
      ghost var tried;
      started, tried := StartIfStopped(i);
      if !started {
        NoStart(workers[i], budget, v0, SightOf(i), old(pending)[0], start, Here());
        return true, SpawnFailed;
      }
      ghost var mid, m, v1 := Snapshots(workers), Here(), SightOf(i);
      threw, a := Offer(i);
      AgedTwice(was, mid, Snapshots(workers), LimitsOf(workers), since, since);
      Restarted(v, i, budget, a);
      LeadsOn(start, m, Here());
      LeadsSelf(Here());
      if tried > 0 {
        EvidenceOfStart(workers[i], budget, v0, v1, SightOf(i), old(pending)[0], a, start, m, Here(), tried);
      }
    }

    lemma NextTask()
      requires Valid() && pending != []
      ensures HasType(sig, pending[0].args) && pending[0].id < SIZE_LIMIT
      ensures forall w | w in workers :: w.sig == sig && w.pad.Valid()
    {
      hide Kernel.Reckoned, HasType, Consistent;
    }

    /** Offers the head of the queue to an idle worker. */
    method Offer(i: nat) returns (threw: bool, ghost a: Attempt)
      requires Valid() && i < |workers| && pending != [] && workers[i].state.Idle?
      modifies this`pending, workers[i], os`procs, os`log, os`socks, os`closed, os`spawns, os`now, os`ticks
      ensures Valid() && AllAged() && !a.SpawnFailed? && Leads(old(Here()), Here())
      ensures Sights() == old(Sights())[i := SightOf(i)]
      ensures View() == DispatchSlot(old(View()), i, a, budget).pool
        && threw == DispatchSlot(old(View()), i, a, budget).threw
      ensures Evidence(workers[i], budget, old(SightOf(i)), SightOf(i), old(pending)[0], a, old(Here()), Here())
    {
      hide Kernel.Reckoned, HasType, WellFormed, Holds, Consistent, Lawful, SlotOf, Snapshots, SlotsOf, Built, Slots,
        Aged, Recent, LimitsOf, Sights, SightOf, Gave, Tore, Unwelcome, Refused, Weight, Leads;
      NextTask();
      assert workers[i] in workers;
      threw, a := false, Took;
      var task := pending[0];
      pending := pending[1..];
      var status, respawned := DeliverOrRestart(i, task);
      if status.Accepted? {
        return;
      }
      task := task.(attempts := task.attempts + 1);
      a := if Poisoned(status) then Failed(status, respawned) else CannotSerialize;
      if Poisoned(status) && !respawned {
        return true, a;
      }
      if !status.SerializeError? && task.attempts < budget {
        pending := pending + [task];
        return;
      }
      threw := true;
    }

    /** Delivers a task to an idle worker, and restarts the worker if that poisoned it. */
    method DeliverOrRestart(i: nat, task: Task) returns (status: SendStatus, respawned: bool)
      requires Valid() && i < |workers| && workers[i].state.Idle? && task.id < SIZE_LIMIT && HasType(sig, task.args)
      requires workers[i].sig == sig && workers[i].pad.Valid()
      modifies workers[i], os`procs, os`log, os`socks, os`closed, os`spawns, os`now, os`ticks
      ensures Valid() && AllAged() && (status.Accepted? || status.SerializeError? || Poisoned(status))
      ensures Leads(old(Here()), Here()) && Sights() == old(Sights())[i := SightOf(i)]
      ensures Slots() == old(Slots())[i :=
        if status.Accepted? then Slot.Busy(task.id, task.args)
        else if status.SerializeError? || respawned then Slot.Idle
        else Slot.Stopped]
      ensures status.Accepted? ==> Gave(workers[i], old(SightOf(i)), SightOf(i), task)
      ensures status.SerializeError? ==> Weight(sig, task.args) > 0xffff_ffff && SightOf(i) == old(SightOf(i))
      ensures Poisoned(status) ==>
        && Tore(sig, old(SightOf(i)), old(os.closed), os.closed)
        && Unwelcome(workers[i], old(SightOf(i)), old(Here()), task.args)
        && (!respawned ==> Refused(old(os.spawns), os.spawns, budget, os.procs, os.socks))
    {
      hide Kernel.Reckoned, HasType, WellFormed, Holds, Consistent, Lawful, SlotOf, Snapshots, SlotsOf, Built, Slots,
        Aged, Recent, LimitsOf, Sights, SightOf, Gave, Tore, Unwelcome, Refused, Weight, Leads;
      ghost var was, since, start := Snapshots(workers), os.now, Here();
      ghost var sights := Sights();
      status := Deliver(i, task);
      respawned := false;
      if Poisoned(status) {
        ghost var mid, between, m, v := Snapshots(workers), os.now, Here(), SightOf(i);
        respawned := RespawnIfNeeded(i);
        AgedTwice(was, mid, Snapshots(workers), LimitsOf(workers), since, between);
        LeadsOn(start, m, Here());
        assert sights[i := v][i := SightOf(i)] == sights[i := SightOf(i)];
      }
    }

    /** send() as the pool uses it: on an idle worker. */
    method Deliver(i: nat, task: Task) returns (status: SendStatus)
      requires Valid() && i < |workers| && workers[i].state.Idle? && task.id < SIZE_LIMIT && HasType(sig, task.args)
      requires workers[i].sig == sig && workers[i].pad.Valid()
      modifies workers[i], os`procs, os`log, os`socks, os`closed, os`now, os`ticks
      ensures Valid() && AllAged() && (status.Accepted? || status.SerializeError? || Poisoned(status))
      ensures Leads(old(Here()), Here()) && Sights() == old(Sights())[i := SightOf(i)]
      ensures Slots() == old(Slots())[i :=
        if status.Accepted? then Slot.Busy(task.id, task.args)
        else if status.SerializeError? then Slot.Idle
        else Slot.Stopped]
      ensures status.Accepted? ==> Gave(workers[i], old(SightOf(i)), SightOf(i), task)
      ensures status.SerializeError? ==> Weight(sig, task.args) > 0xffff_ffff && SightOf(i) == old(SightOf(i))
      ensures Poisoned(status) ==>
        && Tore(sig, old(SightOf(i)), old(os.closed), os.closed)
        && Unwelcome(workers[i], old(SightOf(i)), old(Here()), task.args)
    {
      hide Kernel.Reckoned, HasType, WellFormed, Holds, Consistent, IsRequest, Aged, Sights, Weight, Frame.Receive,
        Sum, Worker.Request, T.Willing, Tore, Unwelcome, Gave, Worker.Abandoned, Worker.Welcome, Leads, Snapshots,
        Slots, QueueOk;
      Usable(i);
      Owned(sig, Snapshots(workers), i, os.procs.Keys, os.socks.Keys);
      ghost var v, m := SightOf(i), Here();
      status := workers[i].Send(task.id, task.args);
      if Poisoned(status) {
        TornOff(workers[i], v, m.closed, os.closed);
        NotWelcomed(workers[i], v, m, task.args);
        SlotReleased(i);
      } else {
        if status.Accepted? {
          Given(workers[i], v, SightOf(i), task);
        }
        SlotMoved(i);
        AgedAt(i);
      }
      Ticking(m, Here());
    }

    // ---- Collecting results -----------------------------------------------------------------

    /** What a collecting operation did to the pool at slot `i`. */
    twostate predicate Collects(c: Collection, i: nat, reusable: bool)
      reads this, os, workers
    {
      match c
      case Nothing => View() == old(View())
      case Gathered(r) =>
        && i < |workers| && old(Slots())[i] == Slot.Busy(r.taskId, r.args)
        && View() == PoolSpec.Collected(old(View()), i, reusable, true)
      case RestartFailed =>
        && i < |workers| && old(Slots())[i].Busy? && !reusable
        && View() == PoolSpec.Collected(old(View()), i, false, false)
    }

    /** Counts a result of slot `i` and restarts the slot if its child is gone. */
    method Settle(i: nat, r: TaskResult) returns (c: Collection)
      requires Valid() && i < |workers| && (Slots()[i].Idle? || Slots()[i].Stopped?)
      modifies this`finished, workers[i], os`procs, os`log, os`socks, os`spawns
      ensures Valid() && AllAged() && (c == Gathered(r) || c == RestartFailed)
        && (c.RestartFailed? ==> old(Slots())[i].Stopped?)
      ensures View() == old(View()).(finished := old(finished) + 1,
        slots := old(Slots())[i := if c.Gathered? then Slot.Idle else Slot.Stopped])
      ensures c.RestartFailed? ==> Refused(old(os.spawns), os.spawns, budget, os.procs, os.socks)
      ensures Leads(old(Here()), Here())
    {
      hide Kernel.Reckoned, HasType, WellFormed, Holds, Consistent, Lawful, Snapshots, SlotsOf, Aged, Refused, Leads,
        Sights;
      ghost var slots := Slots();
      assert slots[i := slots[i]] == slots;
      finished := finished + 1;
      var ok := RespawnIfNeeded(i);
      c := if ok then Gathered(r) else RestartFailed;
    }

    /** The first expired task, if there is one: at one moment `at` during the call every slot before it is passed over,
        and the result is what two looks at its socket and its child make of it. Otherwise nothing happens but these
        looks. */
    method CollectExpiredTask() returns (c: Collection, i: nat, ghost at: nat)
      requires Valid()
      modifies this`finished, workers, os`procs, os`log, os`socks, os`closed, os`spawns, os`now, os`ticks
      ensures Valid() && AllAged() && Collects(c, i, false) && Leads(old(Here()), Here())
      ensures old(os.now) <= at <= os.now && at <= old(os.Horizon()) && (c.Nothing? || i < |workers|)
      ensures forall j | 0 <= j < (if c.Nothing? then |workers| else i) :: PassedOver(old(Sights())[j], at)
      ensures c.Nothing? ==>
        && Sights() == AllLooked(old(Sights()), at) && os.Horizon() == old(os.Horizon())
        && Here() == old(Here()).(ticks := os.ticks, procs := os.procs, socks := os.socks)
      ensures c.Gathered? ==> Expires(old(Sights())[i], at, c.result)
      ensures c.RestartFailed? ==>
        && (exists r :: Expires(old(Sights())[i], at, r))
        && Refused(old(os.spawns), os.spawns, budget, os.procs, os.socks)
    {
      hide Kernel.Reckoned, HasType, WellFormed, Holds, Consistent, Lawful, Snapshots, SlotsOf, PoolSpec.Collected,
        Expires, PassedOver, Slots, Built, QueueOk, Aged, LimitsOf, Recent, SlotOf, AfterLook, SomeLooked, Refused,
        Leads, Sights;
      ghost var was, since, m := Snapshots(workers), os.now, Here();
      AgedSelf(was, LimitsOf(workers), since);
      ghost var start := Sights();
      var now := os.Now();
      Ticking(m, Here());
      at := now;
      i := 0;
      NoneLooked(start, at);
      while i < |workers|
        invariant Valid() && AllAged() && View() == old(View()) && i <= |workers| && Leads(m, Here())
        invariant since <= at == now <= os.now && at <= old(os.Horizon()) && os.Horizon() == old(os.Horizon())
        invariant Here() == m.(ticks := os.ticks, procs := os.procs, socks := os.socks)
        invariant forall j | 0 <= j < i :: PassedOver(start[j], now)
        invariant Sights() == SomeLooked(start, at, i)
      {
        ghost var mid, between, m' := Snapshots(workers), os.now, Here();
        OneMoreLooked(start, at, i);
        c := CollectIfExpired(i, now);
        AgedTwice(was, mid, Snapshots(workers), LimitsOf(workers), since, between);
        LeadsOn(m, m', Here());
        if !c.Nothing? {
          return;
        }
        i := i + 1;
      }
      c := Nothing;
    }

    /** One turn of the search: slot `i` is passed over, or its task is collected. */
    method CollectIfExpired(i: nat, now: nat) returns (c: Collection)
      requires Valid() && i < |workers|
      modifies this`finished, workers[i], os`procs, os`log, os`socks, os`closed, os`spawns, os`now, os`ticks
      ensures Valid() && AllAged() && Collects(c, i, false) && os.now == old(os.now) && Leads(old(Here()), Here())
      ensures c.Nothing? ==>
        && PassedOver(old(Sights())[i], now) && Here() == old(Here()).(procs := os.procs, socks := os.socks)
        && Sights() == old(Sights())[i := AfterLook(old(Sights())[i], now)]
      ensures c.Gathered? ==> Expires(old(Sights())[i], now, c.result)
      ensures c.RestartFailed? ==>
        && (exists r :: Expires(old(Sights())[i], now, r))
        && Refused(old(os.spawns), os.spawns, budget, os.procs, os.socks)
    {
      hide Kernel.Reckoned, HasType, WellFormed, Holds, Consistent, Lawful, Snapshots, SlotsOf, PoolSpec.Collected,
        Expires, PassedOver, Slots, Built, QueueOk, Aged, LimitsOf, Recent, AfterLook, Refused, Leads, Sights;
      ghost var was, since, m := Snapshots(workers), os.now, Here();
      ghost var slots, v := Slots(), View();
      assert slots[i := slots[i]] == slots;
      var r := ExpireAt(i, now);
      if r.None? {
        return Nothing;
      }
      SettledPool(v, View(), i, Slot.Stopped);
      ghost var mid, between, m' := Snapshots(workers), os.now, Here();
      c := Settle(i, r.value);
      LeadsOn(m, m', Here());
      AgedTwice(was, mid, Snapshots(workers), LimitsOf(workers), since, between);
    }

    method ExpireAt(i: nat, now: nat) returns (r: Option<TaskResult>)
      requires Valid() && i < |workers|
      modifies workers[i], os`procs, os`log, os`socks, os`closed, os`now, os`ticks
      ensures Valid() && AllAged() && Leads(old(Here()), Here()) && os.now == old(os.now)
      ensures r.None? ==> Slots() == old(Slots())[i := old(Slots())[i]]
      ensures r.Some? ==>
        old(Slots())[i] == Slot.Busy(r.value.taskId, r.value.args) && Slots() == old(Slots())[i := Slot.Stopped]
      ensures r.None? ==>
        && PassedOver(old(Sights())[i], now) && Here() == old(Here()).(procs := os.procs, socks := os.socks)
        && Sights() == old(Sights())[i := AfterLook(old(Sights())[i], now)]
      ensures r.Some? ==> Expires(old(Sights())[i], now, r.value)
    {
      hide Kernel.Reckoned, HasType, WellFormed, Holds, Consistent, CheckDeadline, Expires, PassedOver, Aged, Recent,
        Looked, Sights, Lawful, QueueOk, Snapshots, Slots, Worker.Released, Leads;
      Usable(i);
      LawfulStates(sig, workers[i].Snapshot(), os.procs.Keys, os.socks.Keys);
      Owned(sig, Snapshots(workers), i, os.procs.Keys, os.socks.Keys);
      ghost var v := SightOf(i);
      r := workers[i].ExpireIfTimedOut(now);
      Ticking(old(Here()), Here());
      if r.Some? {
        ExpiredTask(v, now, r.value);
        SlotReleased(i);
      } else {
        if workers[i].state.Busy? {
          SlotMoved(i);
        } else {
          SameSights(old(Sights()), i);
          Updated(i);
          OneSight(i);
        }
        AgedAt(i);
      }
    }

    method FindWorkerByFd(fd: int) returns (index: Option<nat>)
      ensures match index
        case Some(i) => i < |workers| && workers[i].fd == fd && forall j | 0 <= j < i :: workers[j].fd != fd
        case None => forall j | 0 <= j < |workers| :: workers[j].fd != fd
    {
      var i := 0;
      while i < |workers|
        invariant 0 <= i <= |workers| && forall j | 0 <= j < i :: workers[j].fd != fd
      {
        if workers[i].fd == fd {
          return Some(i);
        }
        i := i + 1;
      }
      index := None;
    }

    lemma Pollable(i: nat)
      requires Valid() && i < |workers|
      ensures Sights()[i].snap == workers[i].Snapshot() && (Slots()[i].Busy? <==> workers[i].state.Busy?)
      ensures workers[i].state.Busy? ==> workers[i].pid > 0 && workers[i].fd >= 0 && workers[i].fd in os.socks
    {
      hide Kernel.Reckoned, HasType, WellFormed, Holds, Consistent, QueueOk, Snapshots;
      Usable(i);
    }

    /** The descriptors that owe a response, in slot order. */
    method PollableFds() returns (fds: seq<int>)
      requires Valid()
      ensures fds == BusyFds(Sights()) && forall fd | fd in fds :: fd in os.socks
      ensures fds == [] <==> forall i | 0 <= i < |workers| :: !Slots()[i].Busy?
    {
      hide Kernel.Reckoned, HasType, WellFormed, Holds, Consistent, Snapshots, SlotsOf, Sights, SightsOf, BusyFds,
        Slots, Lawful, SlotOf;
      fds := [];
      NoFds();
      var i := 0;
      while i < |workers|
        invariant 0 <= i <= |workers|
        invariant fds == BusyFds(Sights()[..i]) && forall fd | fd in fds :: fd in os.socks
        invariant fds == [] <==> forall j | 0 <= j < i :: !Slots()[j].Busy?
      {
        Pollable(i);
        BusyFdsNext(Sights(), i);
        if workers[i].state.Busy? && workers[i].pid > 0 && workers[i].fd >= 0 {
          fds := fds + [workers[i].fd];
        }
        i := i + 1;
      }
      assert Sights()[..i] == Sights();
    }

    /** The descriptor of a busy worker shows an event: receive() of the worker that has it is called, which never
        throws here. `r` is the result that it returns; only a restart for which every fork is refused loses it. */
    method CollectWorkerEvent(fd: int, ghost k: nat)
        returns (c: Collection, i: nat, ghost reusable: bool, ghost r: TaskResult, ghost account: Account)
      requires Valid() && k < |workers| && workers[k].state.Busy? && workers[k].fd == fd
      modifies this`finished, workers, os`procs, os`log, os`socks, os`closed, os`spawns, os`now, os`ticks
      ensures Valid() && AllAged() && !c.Nothing? && Collects(c, i, reusable) && Leads(old(Here()), Here())
      ensures i == k && (c.Gathered? ==> c.result == r)
      ensures c.RestartFailed? ==> r.status !in {OkStatus, Exception}
      ensures FairTimeout(old(Sights())[i], old(os.now), os.now, r)
      ensures Accounts(i, old(Sights())[i], old(os.ticks), old(os.now), os.now, account, r)
      ensures c.RestartFailed? ==> Refused(old(os.spawns), os.spawns, budget, os.procs, os.socks)
    {
      hide Kernel.Reckoned, HasType, WellFormed, Holds, Consistent, Lawful, Snapshots, SlotsOf, PoolSpec.Collected,
        FairTimeout, FromWaitStatus, FinishTask, Aged, LimitsOf, Built, QueueOk, Accounts, Refused, Leads, Sights,
        SightOf, SlotOf, Slots, Recent;
      ghost var was, since, m := Snapshots(workers), os.now, Here();
      SameFd(fd, k);
      var index := FindWorkerByFd(fd);
      i := index.value;
      ghost var v := View();
      var result;
      result, account := ReceiveAt(i);
      r := result;
      reusable := Slots()[i].Idle?;
      SettledPool(v, View(), i, Slots()[i]);
      ghost var mid, between, m' := Snapshots(workers), os.now, Here();
      c := Settle(i, result);
      LeadsOn(m, m', Here());
      AgedTwice(was, mid, Snapshots(workers), LimitsOf(workers), since, between);
    }

    /** Only one worker has this descriptor. */
    lemma SameFd(fd: int, i: nat)
      requires Valid() && i < |workers| && workers[i].state.Busy? && workers[i].fd == fd
      ensures forall j | 0 <= j < |workers| && workers[j].fd == fd :: j == i
    {
      hide Kernel.Reckoned, HasType, WellFormed, Lawful;
      Usable(i);
      LawfulLine(sig, workers[i].Snapshot(), os.procs.Keys, os.socks.Keys);
      forall j | 0 <= j < |workers| && workers[j].fd == fd
        ensures i == j
      {
        if i != j {
          Separate(sig, Snapshots(workers), os.procs.Keys, os.socks.Keys, i, j);
        }
      }
    }

    method ReceiveAt(i: nat) returns (r: TaskResult, ghost account: Account)
      requires Valid() && i < |workers| && workers[i].state.Busy?
      modifies workers[i], os`procs, os`log, os`socks, os`closed, os`now, os`ticks
      ensures Valid() && AllAged() && old(Slots())[i] == Slot.Busy(r.taskId, r.args) && Leads(old(Here()), Here())
      ensures (Slots()[i].Idle? || Slots()[i].Stopped?) && Slots() == old(Slots())[i := Slots()[i]]
      ensures FairTimeout(old(Sights())[i], old(os.now), os.now, r)
      ensures Accounts(i, old(Sights())[i], old(os.ticks), old(os.now), os.now, account, r)
      ensures r.status in {OkStatus, Exception} ==> Slots()[i].Idle?
    {
      hide Kernel.Reckoned, HasType, WellFormed, Holds, Consistent, FairTimeout, FromWaitStatus, FinishTask, Aged,
        Recent, Receipt, Sights, Sum, Snapshots, Slots, QueueOk, Leads;
      Usable(i);
      Owned(sig, Snapshots(workers), i, os.procs.Keys, os.socks.Keys);
      ghost var at, reception;
      var answer;
      answer, at, reception := workers[i].Receive();
      r := answer.value;
      account := Account(at, reception);
      Ticking(old(Here()), Here());
      if workers[i].state.Idle? {
        SlotMoved(i);
        AgedAt(i);
      } else {
        SlotReleased(i);
      }
    }

    /** `r` is what receive() makes of slot `i`, seen as `v`. */
    ghost predicate Accounts(i: nat, v: Sight, ticks: seq<nat>, since: nat, now: nat, account: Account, r: TaskResult) {
      && i < |workers| && since <= account.at <= now && account.at <= since + Sum(ticks)
      && Receipt(sig, v, ticks, workers[i].timeouts.frame, account.at, account.reception, r,
                 now >= since + workers[i].timeouts.frame)
    }

    // ---- Waiting ----------------------------------------------------------------------------

    method HasWorkNow() returns (r: bool)
      requires Valid()
      ensures r == HasWork(View())
    {
      hide Kernel.Reckoned, HasType, WellFormed, Holds, Consistent, Snapshots, SlotsOf;
      if pending != [] {
        return true;
      }
      var i := 0;
      while i < |workers|
        invariant 0 <= i <= |workers| && forall j | 0 <= j < i :: !Slots()[j].Busy?
      {
        Usable(i);
        LawfulStates(sig, workers[i].Snapshot(), os.procs.Keys, os.socks.Keys);
        if workers[i].state.Busy? {
          assert Slots()[i].Busy?;
          return true;
        }
        i := i + 1;
      }
      r := false;
    }

    /** The deadline checks at time `at` end the round with this outcome. */
    ghost predicate ExpirySays(sights: seq<Sight>, at: nat, outcome: WaitOutcome, index: nat, refused: bool) {
      && index < |sights| && !PassedOver(sights[index], at) && (forall j | 0 <= j < index :: PassedOver(sights[j], at))
      && match outcome
         case Result(r) => Expires(sights[index], at, r)
         case DispatchError => refused
         case _ => false
    }

    /** What poll() answers ends the round with this outcome, or with none. */
    ghost predicate PollSays(round: Round, sights: seq<Sight>, ticks: seq<nat>, since: nat, now: nat,
                             outcome: Option<WaitOutcome>, index: nat, account: Account, refused: bool) {
      match round
      case RoundFails(errno) => outcome == if errno.Interrupted? then None else Some(PollFailure)
      case Round(shown) =>
        var k := FirstShown(shown, sights);
        if k == |sights| then outcome == None
        else
          && index == k && outcome.Some?
          && match outcome.value
             case Result(r) => Accounts(k, sights[k], ticks, since, now, account, r)
             case DispatchError => refused && exists r :: Lost(k, sights[k], ticks, since, now, account, r)
             case _ => false
    }

    /** A result that is no answer of the target, and so comes with the end of the child. */
    ghost predicate Lost(i: nat, v: Sight, ticks: seq<nat>, since: nat, now: nat, account: Account, r: TaskResult) {
      Accounts(i, v, ticks, since, now, account, r) && r.status !in {OkStatus, Exception}
    }

    /** The same, seen from an earlier moment. */
    lemma AccountsSince(i: nat, v: Sight, ticks: seq<nat>, before: seq<nat>, between: nat, since: nat, now: nat,
                        account: Account, r: TaskResult)
      requires Accounts(i, v, ticks, between, now, account, r)
      requires since <= between && between + Sum(ticks) <= since + Sum(before) && Sum(ticks) <= Sum(before)
      ensures Accounts(i, v, before, since, now, account, r)
    {
      hide Receipt, Sum;
      ReceiptSince(sig, v, ticks, before, workers[i].timeouts.frame, account.at, account.reception, r,
                   now >= between + workers[i].timeouts.frame, now >= since + workers[i].timeouts.frame);
    }

    lemma PollSaysSince(round: Round, sights: seq<Sight>, ticks: seq<nat>, before: seq<nat>, between: nat, since: nat,
                        now: nat, outcome: Option<WaitOutcome>, index: nat, account: Account, refused: bool, ever: bool)
      requires PollSays(round, sights, ticks, between, now, outcome, index, account, refused) && (refused ==> ever)
      requires since <= between && between + Sum(ticks) <= since + Sum(before) && Sum(ticks) <= Sum(before)
      ensures PollSays(round, sights, before, since, now, outcome, index, account, ever)
    {
      hide Accounts, Sum, Receipt, FirstShown;
      if round.Round? && FirstShown(round.shown, sights) < |sights| {
        var k := FirstShown(round.shown, sights);
        if outcome.value.Result? {
          AccountsSince(k, sights[k], ticks, before, between, since, now, account, outcome.value.result);
        } else {
          var r :| Lost(k, sights[k], ticks, between, now, account, r);
          AccountsSince(k, sights[k], ticks, before, between, since, now, account, r);
          assert Lost(k, sights[k], before, since, now, account, r);
        }
      }
    }

    /** A round in which there is something in flight and nothing to dispatch. */
    ghost predicate RoundSays(round: Round, sights: seq<Sight>, ticks: seq<nat>, since: nat, now: nat, at: nat,
                              outcome: Option<WaitOutcome>, index: nat, account: Account, refused: bool) {
      && since <= at <= since + Sum(ticks)
      && if forall k | 0 <= k < |sights| :: PassedOver(sights[k], at)
         then PollSays(round, AllLooked(sights, at), ticks, since, now, outcome, index, account, refused)
         else outcome.Some? && ExpirySays(sights, at, outcome.value, index, refused)
    }

    ghost function Scenery(): Scene
      reads workers, os
    {
      Scene(Sights(), Here(), os.now)
    }

    /** A round begins with a dispatch pass. There is evidence for each of its attempts, it leaves the scene `seen`
        behind, and it changes nothing when there is nothing to dispatch. */
    ghost predicate Opening(v: Pool, start: Scene, how: seq<Attempt>, seen: Scene)
      requires |v.slots| == |workers| == |start.sights|
    {
      && |how| == |workers| == |seen.sights|
      && AllEvident(v, how, start.sights, seen.sights, start.m, seen.m)
      && (NothingToDispatch(v) ==> seen == start)
      && var pass := Dispatch(v, 0, how, budget);
         !pass.threw ==>
           && |pass.pool.slots| == |workers|
           && forall k | 0 <= k < |workers| :: pass.pool.slots[k] == SlotOf(seen.sights[k].snap)
    }

    lemma Opened(v: Pool, start: Scene, how: seq<Attempt>, seen: Scene)
      requires |v.slots| == |workers| == |start.sights| == |how| == |seen.sights|
      requires AllEvident(v, how, start.sights, seen.sights, start.m, seen.m)
      requires NothingToDispatch(v) ==> seen == start
      requires var slots := Dispatch(v, 0, how, budget).pool.slots;
        |slots| == |workers| && forall k | 0 <= k < |workers| :: slots[k] == SlotOf(seen.sights[k].snap)
      ensures Opening(v, start, how, seen)
    {
      hide AllEvident, Dispatch, NothingToDispatch, SlotOf;
    }

    /** A whole round: when the pass throws, so does the call; otherwise, with something in flight, the deadline checks
        and poll() decide. */
    ghost predicate RoundGoes(v: Pool, start: Scene, round: Round, tr: Trace, now: nat, outcome: Option<WaitOutcome>,
                              index: nat, here: Moment)
      requires |v.slots| == |workers| == |start.sights|
    {
      && Opening(v, start, tr.how, tr.seen)
      && var pass := Dispatch(v, 0, tr.how, budget);
         if pass.threw then outcome == Some(DispatchError)
         else
           AnyBusy(pass.pool.slots) ==>
             RoundSays(round, tr.seen.sights, tr.seen.m.ticks, tr.seen.now, now, tr.at, outcome, index, tr.account,
                       Refused(tr.seen.m.spawns, here.spawns, budget, here.procs, here.socks))
    }

    lemma ExpiryDecides(round: Round, sights: seq<Sight>, ticks: seq<nat>, since: nat, now: nat, at: nat,
                        o: WaitOutcome, index: nat, account: Account, refused: bool)
      requires since <= at <= since + Sum(ticks) && ExpirySays(sights, at, o, index, refused)
      ensures RoundSays(round, sights, ticks, since, now, at, Some(o), index, account, refused)
    {
      hide PassedOver, PollSays, Sum;
    }

    lemma PollDecides(round: Round, sights: seq<Sight>, ticks: seq<nat>, since: nat, now: nat, at: nat,
                      outcome: Option<WaitOutcome>, index: nat, account: Account, refused: bool)
      requires since <= at <= since + Sum(ticks) && forall k | 0 <= k < |sights| :: PassedOver(sights[k], at)
      requires PollSays(round, AllLooked(sights, at), ticks, since, now, outcome, index, account, refused)
      ensures RoundSays(round, sights, ticks, since, now, at, outcome, index, account, refused)
    {
      hide PassedOver, PollSays, Sum, AllLooked;
    }

    /** With time left for every task, the reply behind the first descriptor that poll() reports is the outcome. */
    lemma PromptResult(shown: set<int>, sights: seq<Sight>, ticks: seq<nat>, since: nat, now: nat, at: nat,
                       outcome: Option<WaitOutcome>, index: nat, account: Account, refused: bool, k: nat,
                       p: Frame.Packet, rest: Octets)
      requires RoundSays(Round(shown), sights, ticks, since, now, at, outcome, index, account, refused)
      requires forall j | 0 <= j < |sights| && sights[j].snap.state.Busy? :: HasTime(sights[j], since + Sum(ticks))
      requires k < |sights| == |workers| && Reported(shown, sights[k])
      requires forall j | 0 <= j < k :: !Reported(shown, sights[j])
      requires HasTime(sights[k], since + Sum(ticks)) && !Waiting(sights[k].proc.value).1.Reaped?
      requires var s := sights[k].sock.value;
        && Frame.Receive(sig, s.unread) == Frame.Got(p, rest) && |rest| <= |s.unread|
        && T.Willing(s, ticks, |s.unread| - |rest|, workers[k].timeouts.frame, false)
      requires p.header.taskId == sights[k].snap.current.value.id
      requires p.header.kind == 2 || (p.header.kind == 3 && p.payload.Text?)
      ensures var task := sights[k].snap.current.value;
        && index == k
        && outcome == Some(Result(
             TaskResult(task.id, task.args, if p.header.kind == 2 then OkStatus else Exception,
                        if p.header.kind == 2 then NoMessage else ChildText(p.payload.text), 0, 0)))
    {
      hide Receipt, T.Willing, Frame.Receive, Waiting, FirstShown, Reported, Sum, AllLooked, PassedOver;
      InTimePassed(sights, since + Sum(ticks), at);
      assert FirstShown(shown, sights) == k;
      var v, timeout := sights[k], workers[k].timeouts.frame;
      forall r | Accounts(k, v, ticks, since, now, account, r)
        ensures r.status in {OkStatus, Exception}
        ensures var task := v.snap.current.value;
          r == TaskResult(task.id, task.args, if p.header.kind == 2 then OkStatus else Exception,
                          if p.header.kind == 2 then NoMessage else ChildText(p.payload.text), 0, 0)
      {
        ReplyReported(sig, v, ticks, timeout, account.at, account.reception, r, now >= since + timeout, p, rest);
      }
    }

    lemma InTimePassed(sights: seq<Sight>, latest: nat, at: nat)
      requires forall j | 0 <= j < |sights| && sights[j].snap.state.Busy? :: HasTime(sights[j], latest)
      requires at <= latest
      ensures AllLooked(sights, at) == sights && forall j | 0 <= j < |sights| :: PassedOver(sights[j], at)
    {
      hide AllLooked, CheckDeadline;
      NothingDue(sights, at);
    }

    /** Why a dispatch_error is thrown: a task of the queue is too large for a packet, every fork was refused, or a
        send() failed inside a frame. */
    ghost predicate ThrownFor(ts: seq<Task>, m: Moment, m': Moment) {
      || (exists t :: t in ts && HasType(sig, t.args) && Weight(sig, t.args) > 0xffff_ffff)
      || Refused(m.spawns, m'.spawns, budget, m'.procs, m'.socks)
      || |m'.closed| > |m.closed|
    }

    /** A pass that throws has one of these reasons. */
    lemma PassThrew(v: Pool, how: seq<Attempt>, was: seq<Sight>, now: seq<Sight>, m: Moment, m': Moment)
      requires Built() && |how| == |v.slots| == |workers| == |was| == |now|
      requires AllEvident(v, how, was, now, m, m') && Dispatch(v, 0, how, budget).threw
      ensures ThrownFor(v.pending, m, m')
    {
      hide Dispatch, Passes, Tries, HeadAt, Refused, HasType, Weight, Gave, Unwelcome, WellFormed, Frame.Receive;
      PassesAreDispatch(v, how, budget, |how|);
      NoSlotsLeft(Passes(v, how, budget).pool, how, budget);
      assert how[..|how|] == how;
      var k := ThrewAt(v, how, budget);
      KnownHead(v, how, k);
      assert workers[k] in workers;
    }

    lemma KnownHead(v: Pool, how: seq<Attempt>, k: nat)
      requires |how| <= |v.slots| && Tries(v, how, budget, k)
      ensures exists t :: t in v.pending && t.args == HeadAt(v, how, budget, k).args
    {
      hide Passes;
      PassKnown(v, how[..k], budget);
      var left := Passes(v, how[..k], budget).pool.pending;
      assert left[0] in left;
    }

    lemma RestartThrew(ts: seq<Task>, start: Moment, m: Moment, m': Moment)
      requires Leads(start, m) && Refused(m.spawns, m'.spawns, budget, m'.procs, m'.socks)
      ensures ThrownFor(ts, start, m')
    {
      hide Leads, Refused, HasType, Weight;
      RefusedSince(start, m, m'.spawns, budget, m'.procs, m'.socks);
    }

    lemma ThrownEarlier(ts: seq<Task>, us: seq<Task>, start: Moment, m: Moment, m': Moment)
      requires ThrownFor(us, m, m') && KnownTasks(ts, us) && Leads(start, m)
      ensures ThrownFor(ts, start, m')
    {
      hide Refused, HasType, Weight;
      if Refused(m.spawns, m'.spawns, budget, m'.procs, m'.socks) {
        RefusedSince(start, m, m'.spawns, budget, m'.procs, m'.socks);
      }
    }

    /** The deadline checks behind a dispatch pass: they end the round, or leave everything as it is but for their
        looks. */
    ghost predicate Sweep(pass: Pass, tr: Trace, outcome: Option<WaitOutcome>, index: nat, left: Pool, after: Scene) {
      var seen := tr.seen;
      if pass.threw then outcome == Some(DispatchError)
      else
        && seen.now <= tr.at <= seen.now + Sum(seen.m.ticks)
        && if outcome.None? then
             && after.sights == AllLooked(seen.sights, tr.at) && left == pass.pool && after.m.spawns == seen.m.spawns
             && after.now + Sum(after.m.ticks) == seen.now + Sum(seen.m.ticks) && seen.now <= after.now
             && forall k | 0 <= k < |seen.sights| :: PassedOver(seen.sights[k], tr.at)
           else
             ExpirySays(seen.sights, tr.at, outcome.value, index,
                        Refused(seen.m.spawns, after.m.spawns, budget, after.m.procs, after.m.socks))
    }

    lemma SweptNothing(pass: Pass, tr: Trace, left: Pool, after: Scene)
      requires pass.threw
      ensures Sweep(pass, tr, Some(DispatchError), 0, left, after)
    {}

    lemma Swept(pass: Pass, tr: Trace, c: Collection, i: nat, left: Pool, after: Scene)
      requires !pass.threw && tr.seen.now <= tr.at <= tr.seen.now + Sum(tr.seen.m.ticks)
      requires forall j | 0 <= j < (if c.Nothing? then |tr.seen.sights| else i) && j < |tr.seen.sights| ::
        PassedOver(tr.seen.sights[j], tr.at)
      requires c.Nothing? ==>
        && after.sights == AllLooked(tr.seen.sights, tr.at) && left == pass.pool
        && after.m.spawns == tr.seen.m.spawns && tr.seen.now <= after.now
        && after.now + Sum(after.m.ticks) == tr.seen.now + Sum(tr.seen.m.ticks)
      requires !c.Nothing? ==> i < |tr.seen.sights| && !PassedOver(tr.seen.sights[i], tr.at)
      requires c.Gathered? ==> Expires(tr.seen.sights[i], tr.at, c.result)
      requires c.RestartFailed? ==> Refused(tr.seen.m.spawns, after.m.spawns, budget, after.m.procs, after.m.socks)
      ensures Sweep(pass, tr, if c.Nothing? then None
        else Some(if c.Gathered? then Result(c.result) else DispatchError),
                    i, left, after)
    {
      hide PassedOver, Expires, Refused, AllLooked, Sum;
    }

    /** Dispatches, then looks for an expired task. */
    method DispatchAndExpire(ghost o: Pool) returns (outcome: Option<WaitOutcome>, index: nat, ghost tr: Trace)
      requires Valid() && SamePlay(o, View()) && !state.Halted?
      modifies this`pending, this`finished, workers, os`procs, os`log, os`socks, os`closed, os`spawns, os`now, os`ticks
      ensures Valid() && AllAged() && Leads(old(Here()), Here())
      ensures outcome.None? ==> SamePlay(o, View()) && KnownTasks(old(pending), pending)
      ensures outcome.None? && Rank(View(), budget) >= Rank(old(View()), budget) ==>
        View() == old(View()) && NothingToDispatch(View())
      ensures outcome.Some? ==>
        && (outcome.value.Result? || outcome.value.DispatchError?) && Explains(o, View(), outcome.value, state)
        && (outcome.value.Result? ==> index < |workers|)
        && InTime(old(Snapshots(workers)), LimitsOf(workers), index, outcome.value, old(os.now), os.now)
      ensures outcome == Some(DispatchError) ==> ThrownFor(old(pending), old(Here()), Here())
      ensures |tr.how| == |workers| == |tr.seen.sights| && Opening(old(View()), old(Scenery()), tr.how, tr.seen)
      ensures Sweep(Dispatch(old(View()), 0, tr.how, budget), tr, outcome, index, View(), Scenery())
    {
      hide Kernel.Reckoned, HasType, WellFormed, Holds, Consistent, Lawful, Snapshots, SlotsOf, Dispatch,
        PoolSpec.Collected, SamePlay, Takes, LosesOne, Rank, HasWork, Aged, PassedOver, Expires, FairTimeout, Late,
        SightOf, SightsOf, LimitsOf, Built, Slots, QueueOk, Recent, SlotOf, AllLooked, Refused, Leads, Sights,
        AllEvident, NothingToDispatch, ThrownFor, Ready, Assigned, Free, Sum, Opening, Sweep, ExpirySays;
      ghost var was, since, start := Snapshots(workers), os.now, Here();
      ghost var v, ts, scene := View(), pending, Scenery();
      AttemptsLeftOver();
      var threw, how := DispatchPendingTasks();
      PassSummary(o, v, how, budget);
      tr := Trace(how, Scenery(), 0, Account(0, None));
      SnapsSeen();
      Opened(v, scene, how, tr.seen);
      if threw {
        PassThrew(v, how, scene.sights, Sights(), start, Here());
        SweptNothing(Dispatch(v, 0, how, budget), tr, View(), Scenery());
        return Some(DispatchError), 0, tr;
      }
      DispatchKnown(v, how, budget);
      ghost var w := View();
      ghost var mid, between, m := Snapshots(workers), os.now, Here();
      ghost var sights := Sights();
      var c, i;
      ghost var at;
      c, i, at := CollectExpiredTask();
      tr := tr.(at := at);
      CollectSummary(o, w, View(), c, i, false);
      AgedTwice(was, mid, Snapshots(workers), LimitsOf(workers), since, between);
      LeadsOn(start, m, Here());
      if c.Gathered? {
        ExpiryIsFair(sights[i], at, c.result, between, os.now);
        FairIsLate(was, mid, LimitsOf(workers), i, sights[i], c.result, since, between, os.now);
        ExpiredNotPassed(sights[i], at, c.result);
      } else if c.RestartFailed? {
        ghost var r :| Expires(sights[i], at, r);
        ExpiredNotPassed(sights[i], at, r);
        RestartThrew(ts, start, m, Here());
      }
      index := i;
      outcome := match c
        case Nothing => None
        case Gathered(r) => Some(Result(r))
        case RestartFailed => Some(DispatchError);
      Swept(Dispatch(v, 0, how, budget), tr, c, i, View(), Scenery());
    }

    /** What poll() reports of the polled descriptors is what it reports of their slots. */
    lemma ReportedOnes(shown: set<int>, fds: seq<int>)
      requires Valid() && fds == BusyFds(Sights())
      ensures forall v | v in Sights() && v.snap.state.Busy? ::
        v.snap.fd in shown + Readable(fds, os.socks) <==> Reported(shown, v)
    {
      hide Kernel.Reckoned, HasType, WellFormed, Holds, Consistent, Lawful, QueueOk, BusyFds;
      forall v | v in Sights() && v.snap.state.Busy?
        ensures v.snap.fd in shown + Readable(fds, os.socks) <==> Reported(shown, v)
      {
        var k :| 0 <= k < |workers| && v == Sights()[k];
        Usable(k);
        LawfulLine(sig, workers[k].Snapshot(), os.procs.Keys, os.socks.Keys);
      }
    }

    /** A poll() that fails, or reports no slot. */
    lemma SaysNothing(round: Round, sights: seq<Sight>, ticks: seq<nat>, now: nat, account: Account,
                      refused: bool)
      ensures round.RoundFails? ==>
        PollSays(round, sights, ticks, now, now, if round.errno.Interrupted? then None else Some(PollFailure), 0,
                 account, refused)
      ensures round.Round? && FirstShown(round.shown, sights) == |sights| ==>
        PollSays(round, sights, ticks, now, now, None, 0, account, refused)
    {
      hide Accounts, Lost, FirstShown;
    }

    /** One that reports a slot, from which `c` was collected. */
    lemma SaysCollected(round: Round, sights: seq<Sight>, ticks: seq<nat>, since: nat, now: nat, c: Collection,
                        r: TaskResult, account: Account, refused: bool)
      requires round.Round? && FirstShown(round.shown, sights) < |sights| && !c.Nothing?
      requires Accounts(FirstShown(round.shown, sights), sights[FirstShown(round.shown, sights)], ticks, since, now,
                        account, r)
      requires if c.Gathered? then c.result == r else refused && r.status !in {OkStatus, Exception}
      ensures PollSays(round, sights, ticks, since, now, Some(if c.Gathered? then Result(c.result) else DispatchError),
                       FirstShown(round.shown, sights), account, refused)
    {
      hide Accounts, FirstShown;
      var k := FirstShown(round.shown, sights);
      assert c.RestartFailed? ==> Lost(k, sights[k], ticks, since, now, account, r);
    }

    /** Polls the busy workers and collects from the first that shows an event. */
    method PollAndCollect(ghost o: Pool, fds: seq<int>)
        returns (outcome: Option<WaitOutcome>, index: nat, ghost account: Account)
      requires Valid() && SamePlay(o, View()) && !state.Halted?
      requires fds == BusyFds(Sights()) && forall fd | fd in fds :: fd in os.socks
      modifies this`finished, os, workers
      ensures Valid() && AllAged() && Leads(old(Here()), Here()) && os.rounds == Tail(old(os.rounds))
      ensures outcome.None? ==> View() == old(View()) && old(os.rounds) != []
      ensures outcome.Some? ==>
        && (outcome.value.Result? || outcome.value.DispatchError? || outcome.value.PollFailure?)
        && Explains(o, View(), outcome.value, state) && (outcome.value.Result? ==> index < |workers|)
        && InTime(old(Snapshots(workers)), LimitsOf(workers), index, outcome.value, old(os.now), os.now)
      ensures outcome == Some(DispatchError) ==> Refused(old(os.spawns), os.spawns, budget, os.procs, os.socks)
      ensures outcome == Some(PollFailure) ==>
        NextRound(old(os.rounds)).RoundFails? && !NextRound(old(os.rounds)).errno.Interrupted?
      ensures PollSays(NextRound(old(os.rounds)), old(Sights()), old(os.ticks), old(os.now), os.now, outcome, index,
                       account, Refused(old(os.spawns), os.spawns, budget, os.procs, os.socks))
    {
      hide Kernel.Reckoned, HasType, WellFormed, Holds, Consistent, Lawful, Snapshots, SlotsOf, PoolSpec.Collected,
        SamePlay, Takes, LosesOne, HasWork, Aged, FairTimeout, Late, SightsOf, LimitsOf, Built, QueueOk, Slots,
        SlotOf, Recent, Accounts, Refused, Leads, Sights, FirstShown, BusyFds, Readable, PollSays, Lost;
      AgedSelf(Snapshots(workers), LimitsOf(workers), os.now);
      LeadsSelf(Here());
      ghost var sights, round := Sights(), NextRound(os.rounds);
      outcome, index, account := None, 0, Account(0, None);
      ghost var ticks, since := os.ticks, os.now;
      var rc := os.PollAll(fds);
      SaysNothing(round, sights, ticks, since, account, Refused(os.spawns, os.spawns, budget, os.procs, os.socks));
      match rc {
        case RoundError(errno) =>
          if !errno.Interrupted? {
            outcome := Some(PollFailure);
          }
        case Seen(ready) =>
          ReportedOnes(round.shown, fds);
          FirstSelected(round.shown, sights, round.shown + Readable(fds, os.socks));
          if ready != [] {
            ghost var w, was := View(), Snapshots(workers);
            ghost var reusable, r;
            var c, i;
            c, i, reusable, r, account := CollectWorkerEvent(ready[0], FirstShown(round.shown, sights));
            CollectSummary(o, w, View(), c, i, reusable);
            if c.Gathered? {
              FairIsLate(was, was, LimitsOf(workers), i, sights[i], c.result, since, since, os.now);
            }
            SaysCollected(round, sights, ticks, since, os.now, c, r, account,
                          Refused(old(os.spawns), os.spawns, budget, os.procs, os.socks));
            index := i;
            outcome := Some(if c.Gathered? then Result(c.result) else DispatchError);
          }
      }
    }

    /** Work, but none in flight: there is something to dispatch. */
    lemma Stranded()
      requires Valid() && HasWork(View()) && forall i | 0 <= i < |workers| :: !Slots()[i].Busy?
      ensures !NothingToDispatch(View())
    {
      hide Consistent, HasType, Kernel.Reckoned, WellFormed, Slots;
      assert !Slots()[0].Busy?;
    }

    /** Waits for the busy workers, or for a moment when there is none. */
    method AwaitEvent(ghost o: Pool) returns (outcome: Option<WaitOutcome>, index: nat, ghost account: Account)
      requires Valid() && SamePlay(o, View()) && !state.Halted? && HasWork(View())
      modifies this`finished, os, workers
      ensures Valid() && AllAged() && Leads(old(Here()), Here())
      ensures os.rounds == old(os.rounds) || os.rounds == Tail(old(os.rounds))
      ensures outcome.None? ==>
        View() == old(View()) && (|os.rounds| < |old(os.rounds)| || !NothingToDispatch(View()))
      ensures outcome.Some? ==>
        && (outcome.value.Result? || outcome.value.DispatchError? || outcome.value.PollFailure?)
        && Explains(o, View(), outcome.value, state) && (outcome.value.Result? ==> index < |workers|)
        && InTime(old(Snapshots(workers)), LimitsOf(workers), index, outcome.value, old(os.now), os.now)
      ensures outcome == Some(PollFailure) ==>
        os.rounds == Tail(old(os.rounds)) && NextRound(old(os.rounds)).RoundFails?
          && !NextRound(old(os.rounds)).errno.Interrupted?
      ensures outcome == Some(DispatchError) ==> Refused(old(os.spawns), os.spawns, budget, os.procs, os.socks)
      ensures !AnyBusy(old(Slots())) ==> outcome.None? && os.rounds == old(os.rounds) && os.now > old(os.now)
      ensures AnyBusy(old(Slots())) ==>
        PollSays(NextRound(old(os.rounds)), old(Sights()), old(os.ticks), old(os.now), os.now, outcome, index, account,
                 Refused(old(os.spawns), os.spawns, budget, os.procs, os.socks))
    {
      hide Kernel.Reckoned, HasType, WellFormed, Holds, Consistent, Lawful, Snapshots, SlotsOf, SamePlay, HasWork,
        Slots, Built, QueueOk, Aged, Late, LimitsOf, Refused, Leads, Sights, PollSays, NothingToDispatch, Explains,
        InTime;
      var fds := PollableFds();
      if fds == [] {
        AgedSelf(Snapshots(workers), LimitsOf(workers), os.now);
        LeadsSelf(Here());
        Stranded();
        os.SleepMillisecond();
        return None, 0, Account(0, None);
      }
      outcome, index, account := PollAndCollect(o, fds);
    }

    /** One round of wait_one(): it ends the call, or uses up a dispatch attempt, a result to come or a poll(). */
    method WaitRound(ghost o: Pool)
        returns (outcome: Option<WaitOutcome>, index: nat, ghost tr: Trace)
      requires Valid() && SamePlay(o, View())
      modifies this`pending, this`finished, os, workers
      ensures Valid() && AllAged() && Leads(old(Here()), Here())
      ensures os.rounds == old(os.rounds) || os.rounds == Tail(old(os.rounds))
      ensures outcome.None? ==> KnownTasks(old(pending), pending)
      ensures outcome.None? ==>
        SamePlay(o, View()) && Rank(View(), budget) + |os.rounds| < Rank(old(View()), budget) + |old(os.rounds)|
      ensures outcome.Some? ==>
        && Explains(o, View(), outcome.value, state) && (outcome.value.Result? ==> index < |workers|)
        && InTime(old(Snapshots(workers)), LimitsOf(workers), index, outcome.value, old(os.now), os.now)
      ensures outcome == Some(PollFailure) ==>
        os.rounds == Tail(old(os.rounds)) && NextRound(old(os.rounds)).RoundFails?
          && !NextRound(old(os.rounds)).errno.Interrupted?
      ensures outcome == Some(DispatchError) ==> ThrownFor(old(pending), old(Here()), Here())
      ensures !state.Halted? ==>
        RoundGoes(old(View()), old(Scenery()), NextRound(old(os.rounds)), tr, os.now, outcome, index, Here())
    {
      hide Kernel.Reckoned, HasType, WellFormed, Holds, Consistent, Lawful, Snapshots, SlotsOf, SamePlay, Takes,
        LosesOne, Rank, HasWork, Slots, Built, QueueOk, Aged, Late, LimitsOf, Recent, Refused, Leads, Sights,
        ThrownFor, PollSays, ExpirySays, RoundSays, AllLooked, PassedOver, NothingToDispatch, Sum, Opening, Dispatch,
        AnyBusy;
      ghost var was, since, limits, start := Snapshots(workers), os.now, LimitsOf(workers), Here();
      ghost var ts := pending;
      AgedSelf(was, limits, since);
      LeadsSelf(start);
      if state.Halted? {
        return Some(StoppedPool), 0, Trace([], Scenery(), 0, Account(0, None));
      }
      outcome, index, tr := DispatchAndExpire(o);
      ghost var seen := tr.seen;
      if outcome.Some? {
        if !Dispatch(old(View()), 0, tr.how, budget).threw {
          ExpiryDecides(NextRound(os.rounds), seen.sights, seen.m.ticks, seen.now, os.now, tr.at, outcome.value, index,
                        tr.account, Refused(seen.m.spawns, os.spawns, budget, os.procs, os.socks));
        }
        return;
      }
      var work := HasWorkNow();
      if !work {
        NoneBusy(View());
        return Some(if state.Finishing? then DrainedPool else Blocks), 0, tr;
      }
      ghost var mid, between, m := Snapshots(workers), os.now, Here();
      ghost var sights := Sights();
      ghost var busy := AnyBusy(Slots());
      ghost var account;
      outcome, index, account := AwaitEvent(o);
      AgedTwice(was, mid, Snapshots(workers), limits, since, between);
      LeadsOn(start, m, Here());
      if busy {
        PollSaysSince(NextRound(old(os.rounds)), sights, m.ticks, seen.m.ticks, between, seen.now, os.now, outcome,
                      index, account, Refused(m.spawns, os.spawns, budget, os.procs, os.socks),
                      Refused(seen.m.spawns, os.spawns, budget, os.procs, os.socks));
        PollDecides(NextRound(old(os.rounds)), seen.sights, seen.m.ticks, seen.now, os.now, tr.at, outcome, index,
                    account, Refused(seen.m.spawns, os.spawns, budget, os.procs, os.socks));
      }
      tr := tr.(account := account);
      if outcome.Some? {
        InTimeBefore(was, mid, limits, index, outcome.value, since, between, os.now);
        if outcome.value.DispatchError? {
          RestartThrew(ts, start, m, Here());
        }
      }
    }

    /** One call of wait_one() without interference from other threads: a result is one of the tasks in play, which it
        takes out of play; a task is lost only together with a dispatch_error; a timeout is reported only for a task
        that had its time. An exception has its reason. The first round dispatches; then the deadline checks and what
        poll() answers decide its outcome, and the call goes on only when they say nothing. It goes round again at most
        once for every dispatch attempt and every result still to come, and once for every poll() that was silent or
        interrupted. */
    method WaitOne() returns (o: WaitOutcome, index: nat, ghost turns: nat, ghost tr: Trace)
      requires Valid()
      modifies this`pending, this`finished, os, workers
      ensures Valid() && (o.Result? ==> index < |workers|)
      ensures Explains(old(View()), View(), o, state)
      ensures InTime(old(Snapshots(workers)), LimitsOf(workers), index, o, old(os.now), os.now)
      ensures |os.rounds| <= |old(os.rounds)|
        && turns <= Rank(old(View()), budget) + (|old(os.rounds)| - |os.rounds|)
      ensures o.PollFailure? ==> PollFailed(old(os.rounds), os.rounds)
      ensures o.DispatchError? ==> ThrownFor(old(pending), old(Here()), Here())
      ensures !state.Halted? ==>
        if turns == 0 then
          RoundGoes(old(View()), old(Scenery()), NextRound(old(os.rounds)), tr, os.now, Some(o), index, Here())
        else
          exists now, i: nat, here ::
            RoundGoes(old(View()), old(Scenery()), NextRound(old(os.rounds)), tr, now, None, i, here)
    {
      hide Kernel.Reckoned, HasType, WellFormed, Holds, Consistent, Lawful, Snapshots, SlotsOf, SamePlay, Takes,
        LosesOne, Rank, HasWork, Slots, Built, QueueOk, Aged, Late, LimitsOf, Recent, Explains, Refused, Leads,
        Sights, ThrownFor, RoundGoes, NothingToDispatch, Sum;
      index, turns, tr := 0, 0, Trace([], Scenery(), 0, Account(0, None));
      ghost var o0, scene := View(), Scenery();
      ghost var was, since, limits, start := Snapshots(workers), os.now, LimitsOf(workers), Here();
      ghost var ts, used := pending, 0;
      AgedSelf(was, limits, since);
      SameItself(o0);
      LeadsSelf(start);
      AfterTail(os.rounds, 0);
      KnownSelf(ts);
      while true
        invariant Valid() && SamePlay(o0, View()) && AllAged() && |os.rounds| <= |old(os.rounds)|
        invariant turns + Rank(View(), budget) + |os.rounds| <= Rank(o0, budget) + |old(os.rounds)|
        invariant Leads(start, Here()) && os.rounds == After(old(os.rounds), used) && KnownTasks(ts, pending)
        invariant turns == 0 ==> Scenery() == scene && os.rounds == old(os.rounds) && View() == o0
        invariant turns > 0 && !state.Halted? ==>
          exists now, i: nat, here :: RoundGoes(o0, scene, NextRound(old(os.rounds)), tr, now, None, i, here)
        decreases Rank(View(), budget) + |os.rounds|
      {
        ghost var mid, between, m := Snapshots(workers), os.now, Here();
        ghost var queue, rounds := pending, os.rounds;
        AfterTail(old(os.rounds), used);
        ghost var t;
        var outcome, i;
        outcome, i, t := WaitRound(o0);
        LeadsOn(start, m, Here());
        tr := if turns == 0 then t else tr;
        if outcome.Some? {
          InTimeBefore(was, mid, limits, i, outcome.value, since, between, os.now);
          if outcome.value.DispatchError? {
            ThrownEarlier(ts, queue, start, m, Here());
          }
          return outcome.value, i, turns, tr;
        }
        AgedTwice(was, mid, Snapshots(workers), limits, since, between);
        used := if os.rounds == rounds then used else used + 1;
        turns := turns + 1;
      }
    }

    // ---- Stopping ---------------------------------------------------------------------------

    method StopAccepting()
      requires Valid()
      modifies this`state
      ensures Valid() && View() == old(View())
      ensures state == if old(state).Accepting? then Finishing else old(state)
    {
      hide Kernel.Reckoned, HasType, WellFormed, Holds, Consistent;
      if state.Accepting? {
        state := Finishing;
      }
    }

    method Drained() returns (r: bool)
      requires Valid()
      ensures r <==> state.Finishing? && !HasWork(View())
    {
      var work := HasWorkNow();
      r := state.Finishing? && !work;
    }

    /** Afterwards nothing is pending, every slot is stopped, every child reaped and every descriptor closed. */
    method StopImmediately()
      requires Valid()
      modifies this`pending, this`state, os, workers
      ensures Valid() && state.Halted? && View() == Killed(old(View()))
      ensures os.procs == map[] && os.socks == map[]
      ensures os.log.forks == os.log.reaps && os.log.opens == os.log.closes
    {
      hide Kernel.Reckoned, HasType, WellFormed, Holds, Consistent, Snapshots, SlotsOf;
      state := Halted;
      pending := [];
      var i := 0;
      while i < |workers|
        invariant 0 <= i <= |workers| && Valid() && pending == [] && state.Halted?
        invariant nextId == old(nextId) && submitted == old(submitted) && finished == old(finished)
        invariant forall j | 0 <= j < i :: Slots()[j].Stopped?
      {
        StopAt(i);
        i := i + 1;
      }
      assert Slots() == Killed(old(View())).slots;
      AllReleased();
      os.NothingLeft();
    }

    method StopAt(i: nat)
      requires Valid() && i < |workers|
      modifies workers[i], os`procs, os`log, os`socks, os`closed, os`now, os`ticks
      ensures Valid() && Slots() == old(Slots())[i := Slot.Stopped]
    {
      hide Kernel.Reckoned, HasType, WellFormed, Holds, Consistent;
      Usable(i);
      Owned(sig, Snapshots(workers), i, os.procs.Keys, os.socks.Keys);
      workers[i].Stop();
      Updated(i);
    }

    lemma AllReleased()
      requires Valid() && forall i | 0 <= i < |workers| :: Slots()[i].Stopped?
      ensures os.procs == map[] && os.socks == map[]
    {
      hide Kernel.Reckoned, HasType, WellFormed;
      var ws := Snapshots(workers);
      forall i | 0 <= i < |ws|
        ensures PidsOf(ws)[i] == -1 && FdsOf(ws)[i] == -1
      {
        Usable(i);
      }
      forall k
        ensures k !in os.procs.Keys && k !in os.socks.Keys
      {
        assert k in os.procs.Keys ==> k >= 0 && k in PidsOf(ws);
        assert k in os.socks.Keys ==> k >= 0 && k in FdsOf(ws);
      }
      assert os.procs.Keys == {} && os.socks.Keys == {};
    }
  }

  lemma LawfulStates(sig: Ty, w: Snap, procs: set<int>, socks: set<int>)
    requires Lawful(sig, w, procs, socks)
    ensures !w.state.Broken? && (w.state.Stopped? <==> w.pid <= 0 || w.fd < 0) && (w.state.Busy? ==> w.current.Some?)
  {}

  lemma LawfulLine(sig: Ty, w: Snap, procs: set<int>, socks: set<int>)
    requires Lawful(sig, w, procs, socks) && w.state.Busy?
    ensures w.pid > 0 && w.pid in procs && w.fd >= 0 && w.fd in socks && w.current.Some?
  {}

  /** Taking a result and restarting the slot, seen as one step. */
  lemma SettledPool(v: Pool, w: Pool, i: nat, s: Slot)
    requires i < |v.slots| && w == v.(slots := v.slots[i := s]) && (s.Idle? || s.Stopped?)
    ensures w.(finished := w.finished + 1, slots := w.slots[i := Slot.Idle]) == PoolSpec.Collected(v, i, s.Idle?, true)
    ensures s.Stopped? ==>
      w.(finished := w.finished + 1, slots := w.slots[i := Slot.Stopped]) == PoolSpec.Collected(v, i, false, false)
  {
    assert w.slots[i := Slot.Idle] == v.slots[i := Slot.Idle];
    assert w.slots[i := Slot.Stopped] == v.slots[i := Slot.Stopped];
  }

  /** The first `count` answers each start a child, with pids and descriptors of their own. */
  predicate AllStart(spawns: seq<Option<Forked>>, count: nat) {
    && count <= |spawns|
    && (forall j | 0 <= j < count :: spawns[j].Some? && spawns[j].value.pid > 0 && spawns[j].value.fd >= 0)
    && (forall i, j | 0 <= i < j < count ::
          spawns[i].value.pid != spawns[j].value.pid && spawns[i].value.fd != spawns[j].value.fd)
  }

  /** Exactly the first `k` answers have been taken, and theirs are the live children and the open descriptors. */
  ghost predicate Taken(spawns: seq<Option<Forked>>, k: nat, left: seq<Option<Forked>>, procs: set<int>,
      socks: set<int>) {
    && k <= |spawns| && left == After(spawns, k)
    && (forall pid | pid in procs :: exists j :: 0 <= j < k && spawns[j].Some? && spawns[j].value.pid == pid)
    && (forall fd | fd in socks :: exists j :: 0 <= j < k && spawns[j].Some? && spawns[j].value.fd == fd)
  }

  lemma NextStarts(spawns: seq<Option<Forked>>, count: nat, k: nat, left: seq<Option<Forked>>,
                   procs: map<int, Proc>, socks: map<int, Sock>)
    requires AllStart(spawns, count) && k < count && Taken(spawns, k, left, procs.Keys, socks.Keys)
    ensures left != [] && CanStart(left[0], procs, socks) && left[0] == spawns[k]
  {}

  lemma OneMoreTaken(spawns: seq<Option<Forked>>, k: nat, left: seq<Option<Forked>>, left': seq<Option<Forked>>,
                     procs: set<int>, socks: set<int>, pid: int, fd: int)
    requires Taken(spawns, k, left, procs, socks) && left != [] && left[0] == spawns[k] && left' == After(left, 1)
    requires Became(left, 0, pid, fd)
    ensures Taken(spawns, k + 1, left', procs + {pid}, socks + {fd})
  {
    assert spawns[k].Some? && spawns[k].value.pid == pid && spawns[k].value.fd == fd;
  }

  /** The constructor: a pool whose workers all run, which it is when every fork succeeds, or, after an exception,
      nothing that is left behind. */
  method Open(os: Kernel, sig: Ty, count: nat, attempts: nat, timeouts: Timeouts, pad: T.Padding)
      returns (pool: WorkerPool?)
    requires os.procs == map[] && os.socks == map[] && os.Reckoned() && WellFormed(sig) && pad.Valid()
    modifies os
    ensures pool == null ==> os.procs == map[] && os.socks == map[] && os.Reckoned()
    ensures count == 0 ==> pool == null
    ensures count > 0 && AllStart(old(os.spawns), count) ==> pool != null
    ensures pool != null ==>
      && fresh(pool) && pool.Valid() && pool.os == os && pool.sig == sig && pool.state.Accepting?
      && pool.View() == PoolSpec.Empty(count) && pool.budget == if attempts == 0 then 1 else attempts
  {
    hide Kernel.Reckoned, HasType, WellFormed, Holds, Consistent, Snapshots, SlotsOf, AllStart, Taken, CanStart,
      Became, After, AllRefused, Lawful, Started, SlotOf, WorkerPool.QueueOk, WorkerPool.Built, InPlay,
      Kernel.Horizon;
    if count == 0 {
      return null;
    }
    var workers := NewWorkers(os, sig, count, timeouts, pad);
    var made := new WorkerPool(os, sig, attempts, workers);
    var i := 0;
    ghost var good := AllStart(os.spawns, count);
    NothingTaken(os.spawns, os.procs, os.socks);
    while i < count
      invariant 0 <= i <= count == |made.workers| && made.Valid() && made.workers == workers
      invariant made.pending == [] && made.nextId == 1 && made.submitted == 0 && made.finished == 0
      invariant made.state.Accepting?
      invariant forall j | 0 <= j < count :: made.Slots()[j] == if j < i then Slot.Idle else Slot.Stopped
      invariant good ==> Taken(old(os.spawns), i, os.spawns, os.procs.Keys, os.socks.Keys)
    {
      var ok := StartSlot(made, i, old(os.spawns), count);
      if !ok {
        made.StopImmediately();
        return null;
      }
      i := i + 1;
    }
    assert made.Slots() == PoolSpec.Empty(count).slots;
    pool := made;
  }

  lemma NothingTaken(spawns: seq<Option<Forked>>, procs: map<int, Proc>, socks: map<int, Sock>)
    requires procs == map[] && socks == map[]
    ensures Taken(spawns, 0, spawns, procs.Keys, socks.Keys)
  {}

  /** When the first answer starts a child, no attempt is refused. */
  lemma FirstTry(spawns: seq<Option<Forked>>, procs: map<int, Proc>, socks: map<int, Sock>, tried: nat, ok: bool)
    requires spawns != [] && CanStart(spawns[0], procs, socks) && tried > 0
    requires AllRefused(spawns, if ok then tried - 1 else tried, procs, socks)
    ensures ok && tried == 1
  {}

  /** Starts slot `i` of a new pool. */
  method StartSlot(pool: WorkerPool, i: nat, ghost spawns: seq<Option<Forked>>, ghost count: nat) returns (ok: bool)
    requires pool.Valid() && i < |pool.workers| && pool.Slots()[i].Stopped?
    modifies pool.workers[i], pool.os`procs, pool.os`log, pool.os`socks, pool.os`spawns
    ensures pool.Valid() && pool.Slots() == old(pool.Slots())[i := if ok then Slot.Idle else Slot.Stopped]
    ensures (AllStart(spawns, count) && i < count
             && Taken(spawns, i, old(pool.os.spawns), old(pool.os.procs.Keys), old(pool.os.socks.Keys))) ==>
              ok && Taken(spawns, i + 1, pool.os.spawns, pool.os.procs.Keys, pool.os.socks.Keys)
  {
    hide Kernel.Reckoned, HasType, WellFormed, Holds, Consistent, Snapshots, SlotsOf, AllStart, Taken, CanStart,
      Became, After, AllRefused, Aged, SightsOf, WorkerPool.Sights, WorkerPool.QueueOk;
    ghost var left, procs, socks := pool.os.spawns, pool.os.procs, pool.os.socks;
    ghost var tried;
    ok, tried := pool.SpawnWorkerOrThrow(i);
    if AllStart(spawns, count) && i < count && Taken(spawns, i, left, procs.Keys, socks.Keys) {
      NextStarts(spawns, count, i, left, procs, socks);
      FirstTry(left, procs, socks, tried, ok);
      OneMoreTaken(spawns, i, left, pool.os.spawns, procs.Keys, socks.Keys, pool.workers[i].pid, pool.workers[i].fd);
    }
  }

  method NewWorkers(os: Kernel, sig: Ty, count: nat, timeouts: Timeouts, pad: T.Padding) returns (workers: seq<Worker>)
    requires WellFormed(sig) && pad.Valid() && os.Reckoned()
    ensures |workers| == count && fresh(workers) && forall i, j | 0 <= i < j < |workers| :: workers[i] != workers[j]
    ensures forall w | w in workers :: w.os == os && w.sig == sig && w.Valid() && w.state.Stopped?
  {
    workers := [];
    while |workers| < count
      invariant |workers| <= count && fresh(workers) && forall i, j | 0 <= i < j < |workers| :: workers[i] != workers[j]
      invariant forall w | w in workers :: w.os == os && w.sig == sig && w.Valid() && w.state.Stopped?
    {
      var w := new Worker(os, sig, timeouts, pad);
      workers := workers + [w];
    }
  }
}
