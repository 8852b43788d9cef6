/** The pool's bookkeeping together with its history: where every submitted task is. The operations below
    are the only ways the locked sections of the pool change it; each keeps the ledger balanced. */
module Ledger {
  import opened Codec
  import opened WorkerSpec
  import opened PoolSpec

  /** Where a task is: in the queue (by absolute position), in a slot, or in one of four accounts. */
  datatype Loc =
    | Pending(pos: nat) | InFlight(slot: nat)
    | Delivered(k: nat) | Unreported(k: nat) | Lost(k: nat) | Dropped

  /** `popped` tasks have left the head of the queue; `args` are the submitted arguments. `delivered` are the
      results wait_one() returned, `unreported` the tasks whose result was dropped by a failed respawn, `lost`
      those a dispatch_error took away, `dropped` counts those stop_immediately() discarded. */
  datatype Books = Books(pool: Pool, popped: nat, args: map<nat, Val>, loc: map<nat, Loc>,
                         delivered: seq<TaskResult>, unreported: seq<nat>, lost: seq<nat>, dropped: nat)

  function Opened(workers: nat): Books {
    Books(PoolSpec.Empty(workers), 0, map[], map[], [], [], [], 0)
  }

  // ---- Operations -------------------------------------------------------------------------

  function Push(b: Books, args: Val): Books {
    b.(pool := Submitted(b.pool, args), args := b.args[b.pool.nextId := args],
       loc := b.loc[b.pool.nextId := Pending(b.popped + |b.pool.pending|)])
  }

  /** A slot that is not busy changes its state. */
  function SetSlot(b: Books, i: nat, slot: Slot): Books
    requires i < |b.pool.slots|
  {
    b.(pool := b.pool.(slots := b.pool.slots[i := slot]))
  }

  /** The bookkeeping of one attempt at slot `i`. */
  function Attempted(b: Books, i: nat, a: Attempt, budget: nat): Books
    requires i < |b.pool.slots| && b.pool.pending != []
  {
    var pass := DispatchSlot(b.pool, i, a, budget);
    var head := b.pool.pending[0].id;
    if a.SpawnFailed? then b.(pool := pass.pool)
    else if pass.lost.Some? then
      b.(pool := pass.pool, popped := b.popped + 1, loc := b.loc[head := Lost(|b.lost|)], lost := b.lost + [head])
    else
      b.(pool := pass.pool, popped := b.popped + 1,
         loc := b.loc[head := if a.Took? then InFlight(i) else Pending(b.popped + |b.pool.pending|)])
  }

  /** A result for busy slot `i` is collected; it is returned unless the slot could not be restarted. */
  function Collected(b: Books, i: nat, result: TaskResult, reusable: bool, respawned: bool): Books
    requires i < |b.pool.slots| && b.pool.slots[i].Busy?
  {
    var id := b.pool.slots[i].id;
    var b' := b.(pool := PoolSpec.Collected(b.pool, i, reusable, respawned));
    if reusable || respawned then
      b'.(delivered := b.delivered + [result], loc := b.loc[id := Delivered(|b.delivered|)])
    else
      b'.(unreported := b.unreported + [id], loc := b.loc[id := Unreported(|b.unreported|)])
  }

  function Killed(b: Books): Books {
    b.(pool := PoolSpec.Killed(b.pool), popped := b.popped + |b.pool.pending|,
       loc := map id | id in b.loc :: if b.loc[id].Pending? || b.loc[id].InFlight? then Dropped else b.loc[id],
       dropped := b.dropped + |b.pool.pending| + CountBusy(b.pool.slots))
  }

  // ---- The balanced ledger ----------------------------------------------------------------

  /** Ids are handed out from 1 on, and exactly the handed-out ids have a place and arguments. */
  ghost predicate IdsOk(b: Books) {
    && (forall id :: id in b.loc <==> 1 <= id < b.pool.nextId)
    && b.args.Keys == b.loc.Keys
    && b.pool.submitted == b.pool.nextId - 1
  }

  /** The queue holds exactly the pending tasks, each with the submitted arguments and attempts left. */
  ghost predicate QueueOk(b: Books, budget: nat) {
    && (forall j | 0 <= j < |b.pool.pending| :: TaskOk(b, budget, j))
    && (forall id | id in b.loc && b.loc[id].Pending? ::
          b.popped <= b.loc[id].pos < b.popped + |b.pool.pending| && b.pool.pending[b.loc[id].pos - b.popped].id == id)
  }

  ghost predicate TaskOk(b: Books, budget: nat, j: nat)
    requires j < |b.pool.pending|
  {
    var t := b.pool.pending[j];
    t.id in b.loc && b.loc[t.id] == Pending(b.popped + j) && t.id in b.args && b.args[t.id] == t.args
      && t.attempts < budget
  }

  /** The busy slots hold exactly the tasks in flight, with the submitted arguments. */
  ghost predicate SlotsOk(b: Books) {
    && (forall i | 0 <= i < |b.pool.slots| && b.pool.slots[i].Busy? :: SlotOk(b, i))
    && (forall id | id in b.loc && b.loc[id].InFlight? ::
          b.loc[id].slot < |b.pool.slots| && b.pool.slots[b.loc[id].slot].Busy?
            && b.pool.slots[b.loc[id].slot].id == id)
  }

  ghost predicate SlotOk(b: Books, i: nat)
    requires i < |b.pool.slots| && b.pool.slots[i].Busy?
  {
    var slot := b.pool.slots[i];
    slot.id in b.loc && b.loc[slot.id] == InFlight(i) && slot.id in b.args && b.args[slot.id] == slot.args
  }

  /** The accounts hold exactly the tasks that left through them, each once. */
  ghost predicate AccountsOk(b: Books) {
    DeliveredOk(b) && UnreportedOk(b) && LostOk(b)
  }

  ghost predicate DeliveredOk(b: Books) {
    && (forall k | 0 <= k < |b.delivered| ::
      b.delivered[k].taskId in b.loc && b.loc[b.delivered[k].taskId] == Delivered(k))
    && (forall id | id in b.loc && b.loc[id].Delivered? ::
          b.loc[id].k < |b.delivered| && b.delivered[b.loc[id].k].taskId == id)
  }

  ghost predicate UnreportedOk(b: Books) {
    && (forall k | 0 <= k < |b.unreported| :: b.unreported[k] in b.loc && b.loc[b.unreported[k]] == Unreported(k))
    && (forall id | id in b.loc && b.loc[id].Unreported? ::
          b.loc[id].k < |b.unreported| && b.unreported[b.loc[id].k] == id)
  }

  ghost predicate LostOk(b: Books) {
    && (forall k | 0 <= k < |b.lost| :: b.lost[k] in b.loc && b.loc[b.lost[k]] == Lost(k))
    && (forall id | id in b.loc && b.loc[id].Lost? :: b.loc[id].k < |b.lost| && b.lost[b.loc[id].k] == id)
  }

  ghost predicate CountsOk(b: Books) {
    && b.pool.submitted == |b.pool.pending| + CountBusy(b.pool.slots) + |b.delivered| + |b.unreported| + |b.lost|
      + b.dropped
    && b.pool.finished == |b.delivered| + |b.unreported|
  }

  ghost predicate Balanced(b: Books, budget: nat) {
    IdsOk(b) && QueueOk(b, budget) && SlotsOk(b) && AccountsOk(b) && CountsOk(b)
  }

  /** wait_one() has returned a result for this task. */
  ghost predicate Answered(b: Books, id: nat) {
    exists k :: 0 <= k < |b.delivered| && b.delivered[k].taskId == id
  }

  // ---- Every operation keeps it balanced --------------------------------------------------

  lemma OpenedBalanced(workers: nat, budget: nat)
    ensures Balanced(Opened(workers), budget)
  {
    CountNone(Opened(workers).pool.slots);
  }

  /** A new id enters the queue. */
  lemma PushKeeps(b: Books, args: Val, budget: nat)
    requires Balanced(b, budget) && budget >= 1
    ensures Balanced(Push(b, args), budget)
  {
    hide QueueOk, SlotsOk, AccountsOk, CountBusy;
    var b' := Push(b, args);
    PushQueue(b, args, budget);
    assert SlotsOk(b') by {
      SlotsPush(b, args);
    }
    assert AccountsOk(b') by {
      AccountsPush(b, args);
    }
  }

  lemma PushQueue(b: Books, args: Val, budget: nat)
    requires IdsOk(b) && QueueOk(b, budget) && budget >= 1
    ensures QueueOk(Push(b, args), budget)
  {
    var b' := Push(b, args);
    assert b.pool.nextId !in b.loc;
    forall j | 0 <= j < |b'.pool.pending|
      ensures TaskOk(b', budget, j)
    {
      assert j < |b.pool.pending| ==> TaskOk(b, budget, j);
    }
  }

  lemma SlotsPush(b: Books, args: Val)
    requires IdsOk(b) && SlotsOk(b)
    ensures SlotsOk(Push(b, args))
  {
    SlotsKept(b, Push(b, args), -1);
  }

  lemma AccountsPush(b: Books, args: Val)
    requires IdsOk(b) && AccountsOk(b)
    ensures AccountsOk(Push(b, args))
  {
    assert b.pool.nextId !in b.loc;
  }

  /** Slots other than `except` stay in the books when nothing moves their tasks. */
  lemma SlotsKept(b: Books, b': Books, except: int)
    requires SlotsOk(b) && |b'.pool.slots| == |b.pool.slots|
    requires forall i | 0 <= i < |b.pool.slots| && i != except :: b'.pool.slots[i] == b.pool.slots[i]
    requires forall id | id in b.loc :: id in b'.loc
    requires forall id | id in b.args :: id in b'.args && b'.args[id] == b.args[id]
    requires forall id | id in b'.loc && b'.loc[id].InFlight? && b'.loc[id].slot != except ::
      id in b.loc && b'.loc[id] == b.loc[id]
    requires forall id | id in b.loc && b.loc[id].InFlight? && b.loc[id].slot != except :: b'.loc[id] == b.loc[id]
    requires 0 <= except < |b.pool.slots| && b'.pool.slots[except].Busy? ==> SlotOk(b', except)
    requires forall id | id in b'.loc && b'.loc[id].InFlight? && b'.loc[id].slot == except ::
      except < |b.pool.slots| && b'.pool.slots[except].Busy? && b'.pool.slots[except].id == id
    ensures SlotsOk(b')
  {
    forall i | 0 <= i < |b'.pool.slots| && b'.pool.slots[i].Busy?
      ensures SlotOk(b', i)
    {
      if i != except {
        assert SlotOk(b, i);
      }
    }
  }

  lemma SetSlotKeeps(b: Books, i: nat, slot: Slot, budget: nat)
    requires Balanced(b, budget) && i < |b.pool.slots| && !b.pool.slots[i].Busy? && !slot.Busy?
    ensures Balanced(SetSlot(b, i, slot), budget)
  {
    var b' := SetSlot(b, i, slot);
    CountUpdate(b.pool.slots, i, slot);
    QueueKept(b, b', budget);
    SlotsKept(b, b', i);
  }

  lemma QueueKept(b: Books, b': Books, budget: nat)
    requires QueueOk(b, budget) && b'.pool.pending == b.pool.pending && b'.popped == b.popped && b'.args == b.args
    requires b'.loc.Keys == b.loc.Keys && forall id | id in b.loc ::
      b'.loc[id] == b.loc[id] || (!b.loc[id].Pending? && !b'.loc[id].Pending?)
    ensures QueueOk(b', budget)
  {
    forall j | 0 <= j < |b'.pool.pending|
      ensures TaskOk(b', budget, j)
    {
      assert TaskOk(b, budget, j);
    }
  }

  /** The head of the queue is accepted, put back behind the others, or lost. */
  lemma AttemptedKeeps(b: Books, i: nat, a: Attempt, budget: nat)
    requires Balanced(b, budget) && i < |b.pool.slots| && b.pool.pending != [] && !b.pool.slots[i].Busy?
    ensures Balanced(Attempted(b, i, a, budget), budget)
  {
    hide QueueOk, SlotsOk, AccountsOk, CountBusy;
    var b' := Attempted(b, i, a, budget);
    if a.SpawnFailed? {
      assert b' == b;
    } else {
      HeadOk(b, budget);
      CountUpdate(b.pool.slots, i, b'.pool.slots[i]);
      AttemptedQueue(b, i, a, budget);
      AttemptedSlots(b, i, a, budget);
      AttemptedAccounts(b, i, a, budget);
    }
  }

  lemma HeadOk(b: Books, budget: nat)
    requires QueueOk(b, budget) && b.pool.pending != []
    ensures TaskOk(b, budget, 0)
  {}

  lemma AttemptedSlots(b: Books, i: nat, a: Attempt, budget: nat)
    requires SlotsOk(b) && i < |b.pool.slots| && b.pool.pending != [] && !b.pool.slots[i].Busy? && !a.SpawnFailed?
    requires TaskOk(b, budget, 0)
    ensures SlotsOk(Attempted(b, i, a, budget))
  {
    SlotsKept(b, Attempted(b, i, a, budget), i);
  }

  lemma AttemptedQueue(b: Books, i: nat, a: Attempt, budget: nat)
    requires QueueOk(b, budget) && i < |b.pool.slots| && b.pool.pending != [] && !a.SpawnFailed?
    ensures QueueOk(Attempted(b, i, a, budget), budget)
  {
    var b' := Attempted(b, i, a, budget);
    assert TaskOk(b, budget, 0);
    forall j | 0 <= j < |b'.pool.pending|
      ensures TaskOk(b', budget, j)
    {
      if j + 1 < |b.pool.pending| {
        assert TaskOk(b, budget, j + 1);
        assert b'.pool.pending[j] == b.pool.pending[j + 1];
      }
    }
    forall id | id in b'.loc && b'.loc[id].Pending?
      ensures b'.popped <= b'.loc[id].pos < b'.popped + |b'.pool.pending|
      ensures b'.pool.pending[b'.loc[id].pos - b'.popped].id == id
    {
      if id != b.pool.pending[0].id {
        assert b.pool.pending[b.loc[id].pos - b.popped].id == id;
        assert b'.pool.pending[b.loc[id].pos - b'.popped] == b.pool.pending[b.loc[id].pos - b.popped];
      }
    }
  }

  lemma AttemptedAccounts(b: Books, i: nat, a: Attempt, budget: nat)
    requires AccountsOk(b) && i < |b.pool.slots| && b.pool.pending != [] && !a.SpawnFailed?
    requires b.pool.pending[0].id in b.loc && b.loc[b.pool.pending[0].id].Pending?
    ensures AccountsOk(Attempted(b, i, a, budget))
  {}

  /** A task in flight ends in the results or in the unreported account. */
  lemma CollectedKeeps(b: Books, i: nat, result: TaskResult, reusable: bool, respawned: bool, budget: nat)
    requires Balanced(b, budget) && i < |b.pool.slots| && b.pool.slots[i].Busy? && result.taskId == b.pool.slots[i].id
    ensures Balanced(Collected(b, i, result, reusable, respawned), budget)
  {
    var b' := Collected(b, i, result, reusable, respawned);
    assert SlotOk(b, i);
    CountUpdate(b.pool.slots, i, b'.pool.slots[i]);
    QueueKept(b, b', budget);
    SlotsKept(b, b', i);
    CollectedAccounts(b, i, result, reusable, respawned);
  }

  lemma CollectedAccounts(b: Books, i: nat, result: TaskResult, reusable: bool, respawned: bool)
    requires AccountsOk(b) && i < |b.pool.slots| && b.pool.slots[i].Busy? && result.taskId == b.pool.slots[i].id
    requires result.taskId in b.loc && b.loc[result.taskId].InFlight?
    ensures AccountsOk(Collected(b, i, result, reusable, respawned))
  {}

  lemma KilledKeeps(b: Books, budget: nat)
    requires Balanced(b, budget)
    ensures Balanced(Killed(b), budget)
  {
    CountNone(Killed(b).pool.slots);
  }
}
