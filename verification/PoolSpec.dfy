/** The scheduler's bookkeeping as a value, and what each critical section of the pool does to it. */
module PoolSpec {
  import opened Codec
  import opened WorkerSpec

  /** A pending unit of work; `attempts` counts failed deliveries. */
  datatype Task = Task(id: nat, args: Val, attempts: nat)

  /** A worker slot as the pool sees it. */
  datatype Slot = Stopped | Idle | Busy(id: nat, args: Val) | Broken

  /** pool_state; `Halted` is its `stopped`. */
  datatype PoolState = Accepting | Finishing | Halted

  datatype Pool = Pool(pending: seq<Task>, slots: seq<Slot>, nextId: nat, submitted: nat, finished: nat)

  function Empty(workers: nat): Pool {
    Pool([], seq(workers, i => Idle), 1, 0, 0)
  }

  /** The locked part of submit(). */
  function Submitted(p: Pool, args: Val): Pool {
    p.(pending := p.pending + [Task(p.nextId, args, 0)], nextId := p.nextId + 1, submitted := p.submitted + 1)
  }

  predicate HasWork(p: Pool) {
    p.pending != [] || exists i :: 0 <= i < |p.slots| && p.slots[i].Busy?
  }

  /** There is no task to hand out, or no slot to take one. */
  predicate NothingToDispatch(p: Pool) {
    p.pending == [] || forall k | 0 <= k < |p.slots| :: p.slots[k].Busy?
  }

  predicate AnyBusy(slots: seq<Slot>) {
    exists k :: 0 <= k < |slots| && slots[k].Busy?
  }

  lemma NoneBusy(p: Pool)
    ensures !HasWork(p) ==> !AnyBusy(p.slots)
  {}

  // ---- Dispatch ---------------------------------------------------------------------------

  /** How the attempt to give the head of the queue to one free slot ends. */
  datatype Attempt =
    | SpawnFailed                                    // the slot was stopped and no child could be started
    | Took                                           // send() was accepted
    | CannotSerialize                                // send() failed before anything was written
    | Failed(status: SendStatus, respawned: bool)    // send() poisoned the worker

  datatype Pass = Pass(pool: Pool, threw: bool, lost: Option<Task>)

  /** One turn of the dispatch loop at a slot that is not busy. */
  function DispatchSlot(p: Pool, i: nat, a: Attempt, budget: nat): Pass
    requires i < |p.slots| && p.pending != []
  {
    var task := p.pending[0];
    var rest := p.pending[1..];
    var again := task.(attempts := task.attempts + 1);
    match a
    case SpawnFailed => Pass(p, true, None)
    case Took => Pass(p.(pending := rest, slots := p.slots[i := Busy(task.id, task.args)]), false, None)
    case CannotSerialize => Pass(p.(pending := rest, slots := p.slots[i := Idle]), true, Some(again))
    case Failed(_, respawned) =>
      var slots := p.slots[i := if respawned then Idle else Stopped];
      if respawned && again.attempts < budget then Pass(p.(pending := rest + [again], slots := slots), false, None)
      else Pass(p.(pending := rest, slots := slots), true, Some(again))
  }

  /** dispatch_pending_tasks() from slot `i` on; `how[j]` is what happens at slot j if it is tried. */
  function Dispatch(p: Pool, i: nat, how: seq<Attempt>, budget: nat): Pass
    requires i <= |p.slots| == |how|
    decreases |p.slots| - i
  {
    if i == |p.slots| || p.pending == [] then Pass(p, false, None)
    else if p.slots[i].Busy? then Dispatch(p, i + 1, how, budget)
    else
      var pass := DispatchSlot(p, i, how[i], budget);
      if pass.threw then pass else Dispatch(pass.pool, i + 1, how, budget)
  }

  // ---- Results and shutdown ---------------------------------------------------------------

  /** A result was taken from busy slot `i`: the slot is reused, or restarted, or left stopped by an
      exception that drops the result. */
  function Collected(p: Pool, i: nat, reusable: bool, respawned: bool): Pool
    requires i < |p.slots|
  {
    p.(finished := p.finished + 1, slots := p.slots[i := if reusable || respawned then Idle else Stopped])
  }

  /** The locked part of stop_immediately(). */
  function Killed(p: Pool): Pool {
    p.(pending := [], slots := seq(|p.slots|, i => Stopped))
  }

  // ---- Progress ---------------------------------------------------------------------------

  function CountBusy(slots: seq<Slot>): nat {
    if slots == [] then 0 else (if slots[0].Busy? then 1 else 0) + CountBusy(slots[1..])
  }

  lemma {:induction false} CountUpdate(slots: seq<Slot>, i: nat, x: Slot)
    requires i < |slots|
    ensures CountBusy(slots[i := x]) ==
      CountBusy(slots) - (if slots[i].Busy? then 1 else 0) + (if x.Busy? then 1 else 0)
  {
    if i > 0 {
      CountUpdate(slots[1..], i - 1, x);
      assert slots[i := x][1..] == slots[1..][i - 1 := x];
    } else {
      assert slots[i := x][1..] == slots[1..];
    }
  }

  lemma {:induction false} CountNone(slots: seq<Slot>)
    requires forall i | 0 <= i < |slots| :: !slots[i].Busy?
    ensures CountBusy(slots) == 0
  {
    if slots == [] {
    } else {
      CountNone(slots[1..]);
    }
  }

  /** Dispatch attempts the pending tasks may still use up, and results still to come. */
  function Rank(p: Pool, budget: nat): nat {
    AttemptsLeft(p.pending, budget) + CountBusy(p.slots)
  }

  function AttemptsLeft(pending: seq<Task>, budget: nat): nat {
    if pending == [] then 0
    else
      var t := pending[0];
      1 + (if t.attempts < budget then budget - t.attempts else 0) + AttemptsLeft(pending[1..], budget)
  }

  lemma {:induction false} AttemptsLeftAppend(pending: seq<Task>, t: Task, budget: nat)
    ensures AttemptsLeft(pending + [t], budget) == AttemptsLeft(pending, budget) + AttemptsLeft([t], budget)
  {
    if pending != [] {
      assert (pending + [t])[1..] == pending[1..] + [t];
      AttemptsLeftAppend(pending[1..], t, budget);
    } else {
      assert pending + [t] == [t];
    }
  }

  lemma AttemptLowersRank(p: Pool, i: nat, a: Attempt, budget: nat)
    requires i < |p.slots| && p.pending != [] && !p.slots[i].Busy? && !a.SpawnFailed?
    requires p.pending[0].attempts < budget
    ensures Rank(DispatchSlot(p, i, a, budget).pool, budget) < Rank(p, budget)
  {
    var q := DispatchSlot(p, i, a, budget).pool;
    CountUpdate(p.slots, i, q.slots[i]);
    if a.Failed? {
      var again := p.pending[0].(attempts := p.pending[0].attempts + 1);
      AttemptsLeftAppend(p.pending[1..], again, budget);
      assert [again][1..] == [];
    }
  }

  /** An attempt that does not throw lowers the rank; a pass that makes none finds no task or no free slot. */
  lemma {:induction false} DispatchRank(p: Pool, i: nat, how: seq<Attempt>, budget: nat)
    requires i <= |p.slots| == |how| && !Dispatch(p, i, how, budget).threw
    requires forall t | t in p.pending :: t.attempts < budget
    ensures var q := Dispatch(p, i, how, budget).pool;
      Rank(q, budget) < Rank(p, budget) ||
      (q == p && (p.pending == [] || forall j | i <= j < |p.slots| :: p.slots[j].Busy?))
    decreases |p.slots| - i
  {
    if i < |p.slots| && p.pending != [] {
      if p.slots[i].Busy? {
        DispatchRank(p, i + 1, how, budget);
      } else {
        AttemptLowersRank(p, i, how[i], budget);
        DispatchRank(DispatchSlot(p, i, how[i], budget).pool, i + 1, how, budget);
      }
    }
  }

  /** A task is given up only when it cannot be serialized, when its worker could not be restarted, or when it has
      used up all its attempts. */
  lemma {:induction false} GivenUp(p: Pool, i: nat, how: seq<Attempt>, budget: nat) returns (k: nat)
    requires i <= |p.slots| == |how| && Dispatch(p, i, how, budget).lost.Some?
    requires forall t | t in p.pending :: t.attempts < budget
    ensures i <= k < |how|
    ensures how[k].CannotSerialize? ||
            (how[k].Failed? && (!how[k].respawned || Dispatch(p, i, how, budget).lost.value.attempts == budget))
    decreases |p.slots| - i
  {
    if p.slots[i].Busy? {
      k := GivenUp(p, i + 1, how, budget);
    } else {
      assert p.pending[0] in p.pending;
      var pass := DispatchSlot(p, i, how[i], budget);
      k := i;
      if !pass.threw {
        k := GivenUp(pass.pool, i + 1, how, budget);
      }
    }
  }

  // ---- Conservation -----------------------------------------------------------------------

  /** A task as its submitter knows it. */
  type Work = (nat, Val)

  function Bit(b: bool): nat {
    if b then 1 else 0
  }

  /** How often the pool is answerable for `x`: queued or in flight with these arguments. */
  function InPlay(p: Pool, x: Work): nat {
    Queued(p.pending, x) + Flying(p.slots, x)
  }

  function Queued(pending: seq<Task>, x: Work): nat {
    if pending == [] then 0 else Bit((pending[0].id, pending[0].args) == x) + Queued(pending[1..], x)
  }

  function Flying(slots: seq<Slot>, x: Work): nat {
    if slots == [] then 0 else FlyingAt(slots[0], x) + Flying(slots[1..], x)
  }

  function FlyingAt(slot: Slot, x: Work): nat {
    Bit(slot.Busy? && (slot.id, slot.args) == x)
  }

  /** Whether the pass threw `x` away. */
  function LostIn(pass: Pass, x: Work): nat {
    Bit(pass.lost.Some? && (pass.lost.value.id, pass.lost.value.args) == x)
  }

  lemma {:induction false} QueuedAppend(pending: seq<Task>, t: Task, x: Work)
    ensures Queued(pending + [t], x) == Queued(pending, x) + Bit((t.id, t.args) == x)
  {
    if pending == [] {
      assert pending + [t] == [t] && [t][1..] == [];
    } else {
      assert (pending + [t])[1..] == pending[1..] + [t];
      QueuedAppend(pending[1..], t, x);
    }
  }

  lemma {:induction false} FlyingUpdate(slots: seq<Slot>, i: nat, s: Slot, x: Work)
    requires i < |slots|
    ensures Flying(slots[i := s], x) + FlyingAt(slots[i], x) == Flying(slots, x) + FlyingAt(s, x)
  {
    if i > 0 {
      FlyingUpdate(slots[1..], i - 1, s, x);
      assert slots[i := s][1..] == slots[1..][i - 1 := s];
    } else {
      assert slots[i := s][1..] == slots[1..];
    }
  }

  lemma AttemptKeeps(p: Pool, i: nat, a: Attempt, budget: nat, x: Work)
    requires i < |p.slots| && p.pending != [] && !p.slots[i].Busy?
    ensures var pass := DispatchSlot(p, i, a, budget); InPlay(pass.pool, x) + LostIn(pass, x) == InPlay(p, x)
  {
    var q := DispatchSlot(p, i, a, budget).pool;
    FlyingUpdate(p.slots, i, q.slots[i], x);
    if a.Failed? {
      QueuedAppend(p.pending[1..], p.pending[0].(attempts := p.pending[0].attempts + 1), x);
    }
  }

  /** A dispatch pass neither invents nor duplicates a task, and loses one only when it throws for it. */
  lemma {:induction false} DispatchKeeps(p: Pool, i: nat, how: seq<Attempt>, budget: nat, x: Work)
    requires i <= |p.slots| == |how|
    ensures var pass := Dispatch(p, i, how, budget);
      && InPlay(pass.pool, x) + LostIn(pass, x) == InPlay(p, x) && (pass.lost.Some? ==> pass.threw)
      && pass.pool.nextId == p.nextId && pass.pool.submitted == p.submitted && pass.pool.finished == p.finished
    decreases |p.slots| - i
  {
    if i < |p.slots| && p.pending != [] {
      if p.slots[i].Busy? {
        DispatchKeeps(p, i + 1, how, budget, x);
      } else {
        AttemptKeeps(p, i, how[i], budget, x);
        var pass := DispatchSlot(p, i, how[i], budget);
        if !pass.threw {
          DispatchKeeps(pass.pool, i + 1, how, budget, x);
        }
      }
    }
  }

  /** Collecting takes exactly the collected task out of play. */
  lemma CollectedTakes(p: Pool, i: nat, reusable: bool, respawned: bool, x: Work)
    requires i < |p.slots| && p.slots[i].Busy?
    ensures InPlay(Collected(p, i, reusable, respawned), x) + Bit((p.slots[i].id, p.slots[i].args) == x) == InPlay(p, x)
  {
    FlyingUpdate(p.slots, i, Collected(p, i, reusable, respawned).slots[i], x);
  }

  /** Without work nothing is in play. */
  lemma {:induction false} NothingInPlay(p: Pool, x: Work)
    requires !HasWork(p)
    ensures InPlay(p, x) == 0
    decreases |p.slots|
  {
    if p.slots == [] {
    } else {
      NothingInPlay(p.(slots := p.slots[1..]), x);
    }
  }

  // ---- A dispatch pass, slot by slot --------------------------------------------------------

  /** The pass over the first |how| slots. */
  function Passes(p: Pool, how: seq<Attempt>, budget: nat): (q: Pass)
    requires |how| <= |p.slots|
    ensures |q.pool.slots| == |p.slots| && (!q.threw ==> q.lost == None)
  {
    if how == [] then Pass(p, false, None)
    else
      var i := |how| - 1;
      var q := Passes(p, how[..i], budget);
      if q.threw || q.pool.pending == [] || q.pool.slots[i].Busy? then q else DispatchSlot(q.pool, i, how[i], budget)
  }

  lemma {:induction false} PassesAreDispatch(p: Pool, how: seq<Attempt>, budget: nat, k: nat)
    requires k <= |how| == |p.slots|
    ensures var q := Passes(p, how[..k], budget);
      Dispatch(p, 0, how, budget) == if q.threw then q else Dispatch(q.pool, k, how, budget)
  {
    if k == 0 {
    } else {
      PassesAreDispatch(p, how, budget, k - 1);
      assert how[..k][..k - 1] == how[..k - 1];
    }
  }

  /** Once a pass has thrown or run out of tasks, later slots change nothing. */
  lemma {:induction false} PassOver(p: Pool, how: seq<Attempt>, rest: seq<Attempt>, budget: nat)
    requires |how| + |rest| == |p.slots|
    requires var q := Passes(p, how, budget); q.threw || q.pool.pending == []
    ensures Passes(p, how + rest, budget) == Passes(p, how, budget)
    ensures Dispatch(p, 0, how + rest, budget) == Passes(p, how, budget)
  {
    Unchanged(p, how, rest, budget);
    PassesAreDispatch(p, how + rest, budget, |p.slots|);
    assert (how + rest)[..|p.slots|] == how + rest;
  }

  lemma {:induction false} Unchanged(p: Pool, how: seq<Attempt>, rest: seq<Attempt>, budget: nat)
    requires |how| + |rest| <= |p.slots|
    requires var q := Passes(p, how, budget); q.threw || q.pool.pending == []
    ensures Passes(p, how + rest, budget) == Passes(p, how, budget)
    decreases |rest|
  {
    if rest == [] {
      assert how + rest == how;
    } else {
      var k := |rest| - 1;
      Unchanged(p, how, rest[..k], budget);
      assert (how + rest)[..|how| + k] == how + rest[..k];
    }
  }

  lemma PassesNext(p: Pool, how: seq<Attempt>, a: Attempt, budget: nat)
    requires |how| < |p.slots|
    ensures var q := Passes(p, how, budget);
      Passes(p, how + [a], budget) ==
        if q.threw || q.pool.pending == [] || q.pool.slots[|how|].Busy? then q
          else DispatchSlot(q.pool, |how|, a, budget)
  {
    assert (how + [a])[..|how|] == how;
  }

  /** An attempt does not depend on whether its slot was stopped or idle; a failed start changes nothing. */
  lemma Restarted(p: Pool, i: nat, budget: nat, a: Attempt)
    requires i < |p.slots| && p.pending != []
    ensures DispatchSlot(p, i, SpawnFailed, budget) == Pass(p, true, None)
    ensures p.slots[i := p.slots[i]] == p.slots
    ensures !a.SpawnFailed? ==>
      DispatchSlot(p.(slots := p.slots[i := Idle]), i, a, budget) == DispatchSlot(p, i, a, budget)
  {
    var q := p.(slots := p.slots[i := Idle]);
    var x := DispatchSlot(p, i, a, budget).pool.slots[i];
    assert q.slots[i := x] == p.slots[i := x];
  }

  /** The pass comes to slot `k` with a task in hand: the slot is free, and nothing has been thrown before. */
  predicate Tries(p: Pool, how: seq<Attempt>, budget: nat, k: nat)
    requires |how| <= |p.slots|
  {
    k < |how| &&
    var q := Passes(p, how[..k], budget);
    !q.threw && q.pool.pending != [] && !q.pool.slots[k].Busy?
  }

  /** The task it has in hand there. */
  function HeadAt(p: Pool, how: seq<Attempt>, budget: nat, k: nat): Task
    requires |how| <= |p.slots| && Tries(p, how, budget, k)
  {
    Passes(p, how[..k], budget).pool.pending[0]
  }

  /** The pass goes on after it. */
  predicate GoesOn(a: Attempt) {
    a.Took? || (a.Failed? && a.respawned)
  }

  lemma ThrowsAt(p: Pool, how: seq<Attempt>, budget: nat, k: nat)
    requires k < |how| <= |p.slots| && Tries(p, how, budget, k) && !Passes(p, how[..k + 1], budget).threw
    ensures GoesOn(how[k])
  {
    assert how[..k + 1][..k] == how[..k];
  }

  lemma TriesMore(p: Pool, how: seq<Attempt>, a: Attempt, budget: nat, k: nat)
    requires |how| < |p.slots| && k <= |how|
    ensures k < |how| ==> (Tries(p, how + [a], budget, k) <==> Tries(p, how, budget, k))
    ensures k < |how| && Tries(p, how, budget, k) ==> HeadAt(p, how + [a], budget, k) == HeadAt(p, how, budget, k)
    ensures k == |how| && Tries(p, how + [a], budget, k) ==>
      var q := Passes(p, how, budget);
      !q.threw && q.pool.pending != [] && !q.pool.slots[k].Busy? && HeadAt(p, how + [a], budget, k) == q.pool.pending[0]
  {
    assert (how + [a])[..k] == how[..k];
    assert how[..|how|] == how;
  }

  /** Every task of `us` is one of `ts`, but for the attempts that it has used up. */
  predicate KnownTasks(ts: seq<Task>, us: seq<Task>) {
    forall u | u in us :: exists t :: t in ts && t.id == u.id && t.args == u.args
  }

  lemma KnownSelf(ts: seq<Task>)
    ensures KnownTasks(ts, ts)
  {}

  lemma KnownOn(a: seq<Task>, b: seq<Task>, c: seq<Task>)
    requires KnownTasks(a, b) && KnownTasks(b, c)
    ensures KnownTasks(a, c)
  {}

  /** A pass hands out no other tasks than those that were pending. */
  lemma {:induction false} PassKnown(p: Pool, how: seq<Attempt>, budget: nat)
    requires |how| <= |p.slots|
    ensures KnownTasks(p.pending, Passes(p, how, budget).pool.pending)
  {
    if how == [] {
      KnownSelf(p.pending);
    } else {
      var q := Passes(p, how[..|how| - 1], budget);
      PassKnown(p, how[..|how| - 1], budget);
      if !q.threw && q.pool.pending != [] && !q.pool.slots[|how| - 1].Busy? {
        AttemptKnown(q.pool, |how| - 1, how[|how| - 1], budget);
        KnownOn(p.pending, q.pool.pending, Passes(p, how, budget).pool.pending);
      }
    }
  }

  lemma AttemptKnown(p: Pool, i: nat, a: Attempt, budget: nat)
    requires i < |p.slots| && p.pending != []
    ensures KnownTasks(p.pending, DispatchSlot(p, i, a, budget).pool.pending)
  {
    assert p.pending[0] in p.pending;
    assert forall t | t in p.pending[1..] :: t in p.pending;
  }

  lemma DispatchKnown(p: Pool, how: seq<Attempt>, budget: nat)
    requires |how| == |p.slots|
    ensures KnownTasks(p.pending, Dispatch(p, 0, how, budget).pool.pending)
  {
    hide Passes, Dispatch;
    PassesAreDispatch(p, how, budget, |how|);
    NoSlotsLeft(Passes(p, how, budget).pool, how, budget);
    assert how[..|how|] == how;
    PassKnown(p, how, budget);
  }

  /** A pass that throws does so at a slot that did not take its task. */
  lemma {:induction false} ThrewAt(p: Pool, how: seq<Attempt>, budget: nat) returns (k: nat)
    requires |how| <= |p.slots| && Passes(p, how, budget).threw
    ensures Tries(p, how, budget, k) && !how[k].Took?
  {
    k := |how| - 1;
    if Passes(p, how[..k], budget).threw {
      var j := ThrewAt(p, how[..k], budget);
      assert how[..k][..j] == how[..j];
      k := j;
    }
  }

  /** Behind the end of a pass nothing is tried. */
  lemma NothingTried(p: Pool, how: seq<Attempt>, rest: seq<Attempt>, budget: nat, k: nat)
    requires |how| + |rest| <= |p.slots| && |how| <= k
    requires var q := Passes(p, how, budget); q.threw || q.pool.pending == []
    ensures !Tries(p, how + rest, budget, k)
  {
    if k < |how + rest| {
      Unchanged(p, how, rest[..k - |how|], budget);
      assert (how + rest)[..k] == how + rest[..k - |how|];
    }
  }

  lemma TriedBefore(p: Pool, how: seq<Attempt>, rest: seq<Attempt>, budget: nat, k: nat)
    requires |how| + |rest| <= |p.slots| && k < |how|
    ensures Tries(p, how + rest, budget, k) <==> Tries(p, how, budget, k)
    ensures Tries(p, how, budget, k) ==> HeadAt(p, how + rest, budget, k) == HeadAt(p, how, budget, k)
  {
    assert (how + rest)[..k] == how[..k];
  }

  predicate TailOf(rest: seq<Task>, all: seq<Task>) {
    |rest| <= |all| && rest == all[|all| - |rest|..]
  }

  lemma TailShorter(rest: seq<Task>, all: seq<Task>)
    requires TailOf(rest, all) && rest != []
    ensures TailOf(rest[1..], all) && rest[0] in all
  {}

  /** When every attempt that is made is accepted, the pass is the one without failures. */
  lemma {:induction false} AllTaken(p: Pool, how: seq<Attempt>, budget: nat, k: nat)
    requires k <= |how| <= |p.slots| && forall j | 0 <= j < k && Tries(p, how, budget, j) :: how[j].Took?
    ensures var q := Passes(p, how[..k], budget);
      !q.threw && TailOf(q.pool.pending, p.pending) && forall j | k <= j < |p.slots| :: q.pool.slots[j] == p.slots[j]
    ensures Passes(p, how[..k], budget) == Passes(p, seq(k, j => Took), budget)
  {
    var tooks := seq(k, j => Took);
    if k == 0 {
      assert how[..0] == [] && tooks == [];
    } else {
      AllTaken(p, how, budget, k - 1);
      assert how[..k][..k - 1] == how[..k - 1] && tooks[..k - 1] == seq(k - 1, j => Took);
      var q := Passes(p, how[..k - 1], budget);
      if q.pool.pending == [] || q.pool.slots[k - 1].Busy? {
      } else {
        assert Tries(p, how, budget, k - 1);
        TailShorter(q.pool.pending, p.pending);
      }
    }
  }

  /** Then the k-th free slot has the k-th pending task. */
  lemma TakenInOrder(p: Pool, how: seq<Attempt>, budget: nat)
    requires |how| == |p.slots| && forall j | 0 <= j < |how| && Tries(p, how, budget, j) :: how[j].Took?
    ensures var pass := Dispatch(p, 0, how, budget); !pass.threw && Assigned(p, Free(p.slots, 0), pass.pool)
  {
    hide Assigned, Free, Dispatch, Tries, Passes;
    var tooks := seq(|how|, j => Took);
    AllTaken(p, how, budget, |how|);
    assert how[..|how|] == how && tooks[..|how|] == tooks;
    PassesAreDispatch(p, how, budget, |how|);
    PassesAreDispatch(p, tooks, budget, |how|);
    NoSlotsLeft(Passes(p, how, budget).pool, how, budget);
    NoSlotsLeft(Passes(p, how, budget).pool, tooks, budget);
    InOrder(p, 0, tooks, budget);
  }

  lemma NoSlotsLeft(p: Pool, how: seq<Attempt>, budget: nat)
    requires |how| == |p.slots|
    ensures Dispatch(p, |how|, how, budget) == Pass(p, false, None)
  {}

  // ---- Dispatch is work-conserving and ordered --------------------------------------------

  /** After a pass that did not throw, nothing is pending unless every slot from `i` on is busy or had
      a failed send in this very pass. */
  lemma {:induction false} WorkConserving(p: Pool, i: nat, how: seq<Attempt>, budget: nat)
    requires i <= |p.slots| == |how| && !Dispatch(p, i, how, budget).threw
    ensures var q := Dispatch(p, i, how, budget).pool;
      && |q.slots| == |p.slots|
      && (forall j | 0 <= j < i :: q.slots[j] == p.slots[j])
      && (q.pending == [] || forall j | i <= j < |q.slots| :: q.slots[j].Busy? || how[j].Failed?)
    decreases |p.slots| - i
  {
    if i < |p.slots| && p.pending != [] {
      if p.slots[i].Busy? {
        WorkConserving(p, i + 1, how, budget);
      } else {
        WorkConserving(DispatchSlot(p, i, how[i], budget).pool, i + 1, how, budget);
      }
    }
  }

  /** The free slots from `i` on, in index order. */
  function Free(slots: seq<Slot>, i: nat): (free: seq<nat>)
    requires i <= |slots|
    ensures forall k | 0 <= k < |free| :: i <= free[k] < |slots|
    decreases |slots| - i
  {
    if i == |slots| then [] else (if slots[i].Busy? then [] else [i]) + Free(slots, i + 1)
  }

  lemma {:induction false} FreeAfter(slots: seq<Slot>, i: nat, k: nat, x: Slot)
    requires k < i <= |slots|
    ensures Free(slots[k := x], i) == Free(slots, i)
    decreases |slots| - i
  {
    if i < |slots| {
      FreeAfter(slots, i + 1, k, x);
    }
  }

  function Min(a: nat, b: nat): nat {
    if a < b then a else b
  }

  /** `j` is none of the first `n` slots in `free`. */
  predicate Untaken(free: seq<nat>, n: nat, j: nat)
    requires n <= |free|
  {
    forall k | 0 <= k < n :: free[k] != j
  }

  /** The k-th of the `free` slots got the k-th pending task, until slots or tasks ran out; the tasks left
      over keep their order and no other slot changed. */
  ghost predicate Assigned(p: Pool, free: seq<nat>, q: Pool)
    requires forall k | 0 <= k < |free| :: free[k] < |p.slots|
  {
    var n := Min(|free|, |p.pending|);
    |q.slots| == |p.slots| && q.pending == p.pending[n..] && Served(free, n, p.pending, q.slots)
      && Kept(free, n, p.slots, q.slots)
  }

  predicate Served(free: seq<nat>, n: nat, pending: seq<Task>, slots: seq<Slot>)
    requires n <= |free| && n <= |pending| && forall k | 0 <= k < |free| :: free[k] < |slots|
  {
    forall k | 0 <= k < n :: slots[free[k]] == Busy(pending[k].id, pending[k].args)
  }

  predicate Kept(free: seq<nat>, n: nat, before: seq<Slot>, after: seq<Slot>)
    requires n <= |free| && |before| == |after|
  {
    forall j | 0 <= j < |before| && Untaken(free, n, j) :: after[j] == before[j]
  }

  /** Without failures tasks are accepted in submission order. */
  lemma {:induction false} InOrder(p: Pool, i: nat, how: seq<Attempt>, budget: nat)
    requires i <= |p.slots| == |how| && forall j | 0 <= j < |how| :: how[j].Took?
    ensures !Dispatch(p, i, how, budget).threw
    ensures Assigned(p, Free(p.slots, i), Dispatch(p, i, how, budget).pool)
    decreases |p.slots| - i
  {
    hide Assigned;
    if i == |p.slots| || p.pending == [] {
      AssignedNone(p, i);
    } else if p.slots[i].Busy? {
      InOrder(p, i + 1, how, budget);
      assert Free(p.slots, i) == Free(p.slots, i + 1);
    } else {
      var q := DispatchSlot(p, i, Took, budget).pool;
      FreeAfter(p.slots, i + 1, i, q.slots[i]);
      InOrder(q, i + 1, how, budget);
      AssignedFirst(p, i, q, Dispatch(q, i + 1, how, budget).pool);
    }
  }

  lemma AssignedNone(p: Pool, i: nat)
    requires i <= |p.slots| && (i == |p.slots| || p.pending == [])
    ensures Assigned(p, Free(p.slots, i), p)
  {}

  lemma AssignedFirst(p: Pool, i: nat, q: Pool, r: Pool)
    requires i < |p.slots| && p.pending != [] && !p.slots[i].Busy?
    requires q == p.(pending := p.pending[1..], slots := p.slots[i := Busy(p.pending[0].id, p.pending[0].args)])
    requires Free(q.slots, i + 1) == Free(p.slots, i + 1) && Assigned(q, Free(p.slots, i + 1), r)
    ensures Assigned(p, Free(p.slots, i), r)
  {
    hide Free, Served, Kept;
    var later, free := Free(p.slots, i + 1), Free(p.slots, i);
    var m := Min(|later|, |q.pending|);
    FreeFirst(p.slots, i);
    KeptFirst(free, later, i, m, p.slots, q.slots, r.slots);
    ServedFirst(free, later, i, m, p.pending, q.pending, r.slots);
  }

  lemma FreeFirst(slots: seq<Slot>, i: nat)
    requires i < |slots| && !slots[i].Busy?
    ensures Free(slots, i) == [i] + Free(slots, i + 1)
  {}

  lemma KeptFirst(free: seq<nat>, later: seq<nat>, i: nat, m: nat, p: seq<Slot>, q: seq<Slot>, r: seq<Slot>)
    requires free == [i] + later && m <= |later| && |p| == |q| == |r| && forall k | 0 <= k < |later| :: later[k] > i
    requires i < |p| && (forall j | 0 <= j < |p| && j != i :: q[j] == p[j]) && Kept(later, m, q, r)
    ensures Kept(free, m + 1, p, r) && r[i] == q[i]
  {
    hide Untaken;
    NotFirst(free, later, i, m, i);
    forall j | 0 <= j < |p| && Untaken(free, m + 1, j)
      ensures r[j] == p[j]
    {
      NotFirst(free, later, i, m, j);
    }
  }

  lemma ServedFirst(free: seq<nat>, later: seq<nat>, i: nat, m: nat, pending: seq<Task>, rest: seq<Task>,
      slots: seq<Slot>)
    requires free == [i] + later && pending != [] && rest == pending[1..] && m <= |later| && m <= |rest|
    requires (forall k | 0 <= k < |later| :: later[k] < |slots|) && Served(later, m, rest, slots)
    requires i < |slots| && slots[i] == Busy(pending[0].id, pending[0].args)
    ensures rest[m..] == pending[m + 1..] && (forall k | 0 <= k < |free| :: free[k] < |slots|)
    ensures Served(free, m + 1, pending, slots)
  {
    forall k | 0 <= k < m + 1
      ensures slots[free[k]] == Busy(pending[k].id, pending[k].args)
    {
      if k > 0 {
        assert free[k] == later[k - 1] && pending[k] == rest[k - 1];
      }
    }
  }

  lemma NotFirst(free: seq<nat>, later: seq<nat>, i: nat, m: nat, j: nat)
    requires free == [i] + later && m <= |later| && forall k | 0 <= k < |later| :: later[k] > i
    ensures Untaken(later, m, i)
    ensures Untaken(free, m + 1, j) ==> j != i && Untaken(later, m, j)
  {
    if Untaken(free, m + 1, j) {
      assert free[0] != j;
      assert forall k | 0 <= k < m :: later[k] == free[k + 1];
    }
  }
}
