/** The invariant's consequences for reachable states, said without the ledger. */
module Guarantees {
  import opened Codec
  import opened Frame
  import opened WorkerSpec
  import opened PoolSpec
  import opened Ledger
  import opened System
  import opened Safety

  /** No task id's target call begins twice, on any interleaving and with any number of delivery retries; a task
      whose delivery is retried or given up has not begun. */
  lemma AtMostOnce(c: Config, s: Sys)
    requires c.budget >= 1 && Reachable(c, s)
    ensures forall i, j | 0 <= i < j < |s.begun| :: s.begun[i] != s.begun[j]
    ensures !s.consumer.Sending? ==> forall j | 0 <= j < |s.books.pool.pending| ::
      s.books.pool.pending[j].id !in s.begun
    ensures forall k | 0 <= k < |s.books.lost| :: s.books.lost[k] !in s.begun
  {
    ReachableInv(c, s);
    hide Receive, HasType, KidOk, Honest, IsRequest;
    forall j | 0 <= j < |s.books.pool.pending| && !s.consumer.Sending?
      ensures s.books.pool.pending[j].id !in s.begun
    {
      assert TaskOk(s.books, c.budget, j);
    }
  }

  /** A child that has been given only part of a request, because the send failed, never gets to run it. */
  lemma FailedSendNeverRuns(c: Config, s: Sys, w: nat)
    requires c.budget >= 1 && Reachable(c, s) && s.consumer.Rejected? && w == s.consumer.i
    ensures s.books.pool.pending != [] && Head(s).id !in s.begun
    ensures w < |s.kids| && Next(c, s, KidReceive(w)) == None
  {
    hide Receive, HasType, IsRequest, Balanced, BegunOk, Honest;
    ReachableInv(c, s);
    assert KidOk(c, s, w);
    HeadPending(c, s);
    if s.kids[w].phase.Await? {
      NothingToReceive(c, s.kids[w], s.consumer.frame, s.consumer.left, Head(s).id, Head(s).args);
    }
  }

  // ---- Conservation -----------------------------------------------------------------------

  ghost predicate Queued(b: Books, id: nat) {
    exists j :: 0 <= j < |b.pool.pending| && b.pool.pending[j].id == id
  }

  ghost predicate Flying(b: Books, id: nat) {
    exists i :: 0 <= i < |b.pool.slots| && b.pool.slots[i].Busy? && b.pool.slots[i].id == id
  }

  ghost predicate Discarded(b: Books, id: nat) {
    id in b.loc && b.loc[id].Dropped?
  }

  function Count(p: bool): nat {
    if p then 1 else 0
  }

  /** Every submitted id is in exactly one of: the queue, a busy slot, the returned results, the results a failed
      respawn dropped, the tasks a dispatch_error took, the tasks stop_immediately() discarded. */
  lemma Conservation(c: Config, s: Sys, id: nat)
    requires c.budget >= 1 && Reachable(c, s)
    ensures var b := s.books;
      Count(Queued(b, id)) + Count(Flying(b, id)) + Count(Answered(b, id)) + Count(id in b.unreported)
      + Count(id in b.lost) + Count(Discarded(b, id)) == Count(1 <= id < b.pool.nextId)
  {
    ReachableInv(c, s);
    hide Receive, HasType, KidOk, Honest, IsRequest, BegunOk;
    var b := s.books;
    QueuedLoc(b, c.budget, id);
    FlyingLoc(b, id);
    assert Answered(b, id) <==> id in b.loc && b.loc[id].Delivered?;
    assert id in b.unreported <==> id in b.loc && b.loc[id].Unreported?;
    assert id in b.lost <==> id in b.loc && b.loc[id].Lost?;
  }

  lemma QueuedLoc(b: Books, budget: nat, id: nat)
    requires QueueOk(b, budget)
    ensures Queued(b, id) <==> id in b.loc && b.loc[id].Pending?
  {
    if j :| 0 <= j < |b.pool.pending| && b.pool.pending[j].id == id {
      assert TaskOk(b, budget, j);
    }
  }

  lemma FlyingLoc(b: Books, id: nat)
    requires SlotsOk(b)
    ensures Flying(b, id) <==> id in b.loc && b.loc[id].InFlight?
  {
    if i :| 0 <= i < |b.pool.slots| && b.pool.slots[i].Busy? && b.pool.slots[i].id == id {
      assert SlotOk(b, i);
    }
  }

  /** No task is queued twice, in flight in two slots, or returned twice. */
  lemma NoDuplicates(c: Config, s: Sys)
    requires c.budget >= 1 && Reachable(c, s)
    ensures var b := s.books;
      && (forall i, j | 0 <= i < j < |b.pool.pending| :: b.pool.pending[i].id != b.pool.pending[j].id)
      && (forall i, j | 0 <= i < j < |b.pool.slots| && b.pool.slots[i].Busy? && b.pool.slots[j].Busy? ::
            b.pool.slots[i].id != b.pool.slots[j].id)
      && (forall i, j | 0 <= i < j < |b.delivered| :: b.delivered[i].taskId != b.delivered[j].taskId)
      && b.pool.submitted == |b.pool.pending| + CountBusy(b.pool.slots) + |b.delivered| + |b.unreported| + |b.lost|
        + b.dropped
  {
    ReachableInv(c, s);
    hide Receive, HasType, KidOk, Honest, IsRequest, BegunOk, Shape;
    var b := s.books;
    forall i, j | 0 <= i < j < |b.pool.pending|
      ensures b.pool.pending[i].id != b.pool.pending[j].id
    {
      assert TaskOk(b, c.budget, i) && TaskOk(b, c.budget, j);
    }
    forall i, j | 0 <= i < j < |b.pool.slots| && b.pool.slots[i].Busy? && b.pool.slots[j].Busy?
      ensures b.pool.slots[i].id != b.pool.slots[j].id
    {
      assert SlotOk(b, i) && SlotOk(b, j);
    }
  }

  /** Every returned result carries the arguments that were submitted under its id; ok and exception results report
      how the target's one execution on exactly these arguments ended. */
  lemma HonestResults(c: Config, s: Sys, k: nat)
    requires c.budget >= 1 && Reachable(c, s) && k < |s.books.delivered|
    ensures Honest(s, s.books.delivered[k])
  {
    ReachableInv(c, s);
  }

  /** The branches for a foreign task id, an unexpected packet kind and a bad frame are unreachable: collecting from
      a readable reply gives an ok or exception result and keeps the child; a bad frame is never seen. */
  lemma StreamsStaySynchronised(c: Config, s: Sys, i: nat, respawned: bool)
    requires c.budget >= 1 && Reachable(c, s) && i < |s.kids|
    ensures Next(c, s, Collect(i, BadFrame, respawned)) == None
    ensures Next(c, s, Collect(i, GotPacket, respawned)).Some? ==>
      var s' := Next(c, s, Collect(i, GotPacket, respawned)).value;
      && |s'.books.delivered| == |s.books.delivered| + 1
      && (s'.books.delivered[|s.books.delivered|].status.OkStatus?
        || s'.books.delivered[|s.books.delivered|].status.Exception?)
      && s'.kids[i].Kid? && s'.kids[i].out == []
  {
    hide Next, Inv, Receive, HasType, IsRequest, IsReply, FinishTask;
    ReachableInv(c, s);
    InvShape(c, s);
    if s.books.pool.slots[i].Busy? {
      OnlyHonestReplies(c, s, i);
      NoBadFrame(c, s, i, respawned);
      PacketCollected(c, s, i, respawned);
    } else {
      NothingToCollect(c, s, i, respawned);
    }
  }

  lemma NothingToCollect(c: Config, s: Sys, i: nat, respawned: bool)
    requires i < |s.books.pool.slots| && !s.books.pool.slots[i].Busy?
    ensures Next(c, s, Collect(i, BadFrame, respawned)) == None && Next(c, s, Collect(i, GotPacket, respawned)) == None
  {
    hide Receive, Classify;
  }

  lemma NoBadFrame(c: Config, s: Sys, i: nat, respawned: bool)
    requires i < |s.kids| && s.kids[i].Kid? && !Receive(c.sig, s.kids[i].out).Bad?
    ensures Next(c, s, Collect(i, BadFrame, respawned)) == None
  {
    hide Receive, Ledger.Collected;
  }

  lemma PacketCollected(c: Config, s: Sys, i: nat, respawned: bool)
    requires i < |s.kids| && i < |s.books.pool.slots| && s.books.pool.slots[i].Busy? && s.kids[i].Kid?
    requires Receive(c.sig, s.kids[i].out).Got? ==>
      var slot := s.books.pool.slots[i];
      && slot.id in s.verdict && Receive(c.sig, s.kids[i].out).rest == []
      && FinishTask(slot.id, slot.args, Receive(c.sig, s.kids[i].out).packet)
         == (ResultOf(slot.id, slot.args, s.verdict[slot.id].outcome), true)
    ensures Next(c, s, Collect(i, GotPacket, respawned)).Some? ==>
      var s' := Next(c, s, Collect(i, GotPacket, respawned)).value;
      && |s'.books.delivered| == |s.books.delivered| + 1
      && (s'.books.delivered[|s.books.delivered|].status.OkStatus?
        || s'.books.delivered[|s.books.delivered|].status.Exception?)
      && s'.kids[i].Kid? && s'.kids[i].out == []
  {
    hide Receive, FinishTask;
  }

  /** An idle worker that nobody is sending to has both directions of its socket empty. */
  lemma IdleIsQuiet(c: Config, s: Sys, i: nat)
    requires c.budget >= 1 && Reachable(c, s) && i < |s.kids| && i < |s.books.pool.slots|
    requires s.books.pool.slots[i].Idle? && !(s.consumer.Sending? && s.consumer.i == i)
    ensures Quiet(s.kids[i])
  {
    ReachableInv(c, s);
    assert KidOk(c, s, i);
  }
}
