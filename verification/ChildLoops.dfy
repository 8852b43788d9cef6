/** The child's request loop: which calls it makes, what it answers, and how it exits. */
module ChildLoops {
  import opened Bytes
  import opened Codec
  import opened Frame
  import opened WorkerSpec
  import opened Kernels
  import opened Transport

  datatype Call = Call(id: U64, args: Val)

  predicate Asks(p: Packet, call: Call) {
    p.header.kind == KIND_RUN && p.header.taskId == call.id && p.payload == Args(call.args)
  }

  /** The calls made are exactly the first packets of the input, in order, each once; the exit code says what
      stood behind them. */
  predicate Executes(sig: Ty, input: Octets, log: seq<Call>, code: nat) {
    var (ps, rest) := ReceiveAll(sig, input);
    && |log| <= |ps|
    && (forall k | 0 <= k < |log| :: Asks(ps[k], log[k]))
    && (code == EXIT_OK ==> |log| < |ps| && ps[|log|].header.kind == KIND_STOP)
    && (code == EXIT_PROTOCOL_ERROR ==>
          if |log| < |ps| then ps[|log|].header.kind !in {KIND_STOP, KIND_RUN} else Receive(sig, rest).Bad?)
  }

  predicate Texts(target: Val -> Outcome, log: seq<Call>) {
    forall k | 0 <= k < |log| :: target(log[k].args).Threw? ==> HasType(TEXT, target(log[k].args).text)
  }

  /** The replies to the calls, one after the other; a reply that cannot be built is missing. */
  function Replies(sig: Ty, target: Val -> Outcome, log: seq<Call>, pad: Padding): Octets
    requires pad.Valid() && Texts(target, log)
  {
    if log == [] then []
    else
      var call := log[|log| - 1];
      var reply := ReplyFrame(sig, call.id, target(call.args), pad.gap, pad.tail);
      Replies(sig, target, log[..|log| - 1], pad) + if reply.Some? then reply.value else []
  }

  /** What the parent was given after `before`: every reply; or, when a transfer failed, all replies but the last and a
      part of that one. */
  predicate Answers(sig: Ty, target: Val -> Outcome, log: seq<Call>, pad: Padding, before: Octets, after: Octets,
      code: nat)
    requires pad.Valid() && Texts(target, log)
  {
    && (code != EXIT_IPC_ERROR ==> after == before + Replies(sig, target, log, pad))
    && (log != [] ==> before + Replies(sig, target, log[..|log| - 1], pad) <= after)
    && after <= before + Replies(sig, target, log, pad)
  }

  lemma RunCarriesArgs(sig: Ty, s: Octets)
    requires Receive(sig, s).Got? && Receive(sig, s).packet.header.kind == KIND_RUN
    ensures Receive(sig, s).packet.payload.Args?
  {}

  /** The remaining input holds the packets that have not been taken yet. */
  predicate Behind(sig: Ty, input: Octets, log: seq<Call>, unread: Octets) {
    var (ps, rest) := ReceiveAll(sig, input);
    && |log| <= |ps| && (forall k | 0 <= k < |log| :: Asks(ps[k], log[k]))
    && ReceiveAll(sig, unread) == (ps[|log|..], rest)
  }

  lemma NextPacket(sig: Ty, input: Octets, log: seq<Call>, unread: Octets, p: Packet, unread': Octets)
    requires Behind(sig, input, log, unread) && Receive(sig, unread) == Got(p, unread')
    ensures |unread'| < |unread| && |log| < |ReceiveAll(sig, input).0| && ReceiveAll(sig, input).0[|log|] == p
    ensures ReceiveAll(sig, unread') == (ReceiveAll(sig, input).0[|log| + 1..], ReceiveAll(sig, input).1)
  {
    hide Receive, Asks;
    FrameLength(sig, unread);
    var ps := ReceiveAll(sig, input).0;
    var later := ReceiveAll(sig, unread').0;
    assert ReceiveAll(sig, unread).0 == [p] + later;
    hide ReceiveAll;
    assert ps[|log|..][0] == p && ps[|log|..][1..] == later;
    assert ps[|log| + 1..] == ps[|log|..][1..];
  }

  lemma TakeCall(sig: Ty, input: Octets, log: seq<Call>, unread: Octets, p: Packet, call: Call, unread': Octets)
    requires Behind(sig, input, log, unread) && p.header.kind == KIND_RUN && p.payload.Args?
    requires call == Call(p.header.taskId, p.payload.args)
    requires |log| < |ReceiveAll(sig, input).0| && ReceiveAll(sig, input).0[|log|] == p
    requires ReceiveAll(sig, unread') == (ReceiveAll(sig, input).0[|log| + 1..], ReceiveAll(sig, input).1)
    ensures Behind(sig, input, log + [call], unread')
  {
    hide ReceiveAll;
  }

  lemma LastPacket(sig: Ty, input: Octets, log: seq<Call>, unread: Octets, p: Packet, code: nat)
    requires Behind(sig, input, log, unread) && |log| < |ReceiveAll(sig, input).0|
      && ReceiveAll(sig, input).0[|log|] == p
    requires p.header.kind != KIND_RUN && code == if p.header.kind == KIND_STOP then EXIT_OK else EXIT_PROTOCOL_ERROR
    ensures Executes(sig, input, log, code)
  {
    hide ReceiveAll;
  }

  lemma Start(sig: Ty, target: Val -> Outcome, pad: Padding, was: Sock, size: Option<nat>)
    requires pad.Valid()
    ensures Midway(sig, target, pad, was, [], was, size)
  {
    hide Benign;
    var ps := ReceiveAll(sig, was.unread).0;
    assert ps[0..] == ps;
    assert was.sent + [] == was.sent;
    hide Receive;
  }

  lemma OneMoreReply(sig: Ty, target: Val -> Outcome, log: seq<Call>, call: Call, pad: Padding, before: Octets,
      mid: Octets,
                     after: Octets, d: Delivery)
    requires pad.Valid() && Texts(target, log) && (target(call.args).Threw? ==> HasType(TEXT, target(call.args).text))
    requires mid == before + Replies(sig, target, log, pad)
    requires Sends(mid, after, ReplyFrame(sig, call.id, target(call.args), pad.gap, pad.tail), d)
    ensures Texts(target, log + [call])
    ensures Answers(sig, target, log + [call], pad, before, after, if d.Delivered? then EXIT_OK else EXIT_IPC_ERROR)
    ensures d.Delivered? ==> after == before + Replies(sig, target, log + [call], pad)
  {
    hide ReplyFrame, HasType;
    var more := log + [call];
    assert more[..|more| - 1] == log;
    var reply := ReplyFrame(sig, call.id, target(call.args), pad.gap, pad.tail);
    var bytes := if reply.Some? then reply.value else [];
    var r, r' := Replies(sig, target, log, pad), Replies(sig, target, more, pad);
    assert r' == r + bytes;
    hide Replies;
    PartAppended(before, r, bytes, mid, after, |after| - |mid|);
  }

  lemma PartAppended(before: Octets, r: Octets, bytes: Octets, mid: Octets, after: Octets, k: nat)
    requires mid == before + r && k <= |bytes|
    requires after == mid + bytes[..k] || (k == |bytes| && after == before + (r + bytes))
    ensures before + r <= after <= before + (r + bytes) && (k == |bytes| ==> after == before + (r + bytes))
  {
    var all := before + (r + bytes);
    assert all == mid + bytes;
    assert all[..|mid|] == mid;
    assert k == |bytes| ==> bytes[..k] == bytes;
    assert all[..|mid| + k] == mid + bytes[..k];
  }

  /** Every whole packet of the input has been taken, and what is left is not malformed. */
  predicate OutOfRequests(sig: Ty, input: Octets, log: seq<Call>) {
    |log| == |ReceiveAll(sig, input).0| && Receive(sig, ReceiveAll(sig, input).1) == Incomplete
  }

  /** The reply to the last call cannot be built. */
  predicate LastUnbuildable(sig: Ty, target: Val -> Outcome, log: seq<Call>, pad: Padding)
    requires pad.Valid() && Texts(target, log)
  {
    log != [] && ReplyFrame(sig, log[|log| - 1].id, target(log[|log| - 1].args), pad.gap, pad.tail).None?
  }

  lemma RestSize(sig: Ty, s: Octets)
    ensures Receive(sig, s).Got? ==> |Receive(sig, s).rest| <= |s|
  {
    hide Receive;
    if Receive(sig, s).Got? {
      FrameLength(sig, s);
    }
  }

  lemma AllTaken(sig: Ty, input: Octets, log: seq<Call>, unread: Octets)
    requires Behind(sig, input, log, unread)
    ensures Receive(sig, unread) == Incomplete ==> OutOfRequests(sig, input, log)
  {
    hide Receive, Asks;
    if Receive(sig, unread) == Incomplete {
      assert ReceiveAll(sig, unread) == ([], unread);
    }
  }

  lemma MoreReplies(sig: Ty, target: Val -> Outcome, log: seq<Call>, call: Call, pad: Padding)
    requires pad.Valid() && Texts(target, log) && (target(call.args).Threw? ==> HasType(TEXT, target(call.args).text))
    ensures Texts(target, log + [call])
    ensures var reply := ReplyFrame(sig, call.id, target(call.args), pad.gap, pad.tail);
      && |Replies(sig, target, log + [call], pad)| ==
           |Replies(sig, target, log, pad)| + (if reply.Some? then |reply.value| else 0)
      && (reply.None? ==> LastUnbuildable(sig, target, log + [call], pad))
  {
    hide ReplyFrame, HasType;
    var more := log + [call];
    assert more[..|more| - 1] == log;
  }

  /** The blocking receive, seen from its stream. */
  method NextRequest(packets: PacketManager, ghost more: nat) returns (r: Reception)
    requires WellFormed(packets.sig) && packets.fd in packets.os.socks
    modifies packets.os`socks, packets.os`now, packets.os`ticks
    ensures packets.fd in packets.os.socks
      && packets.os.socks == old(packets.os.socks)[packets.fd := packets.os.socks[packets.fd]]
    ensures packets.os.socks[packets.fd].sent == old(packets.os.socks[packets.fd]).sent
    ensures var s := old(packets.os.socks[packets.fd]);
      Receive(packets.sig, s.unread).Bad? && Benign(s.moves, |s.unread| + more) ==> r.Malformed?
    ensures var front := Receive(packets.sig, old(packets.os.socks[packets.fd]).unread);
      && (r.Arrived? ==> front == Got(r.packet, packets.os.socks[packets.fd].unread))
      && (r.Malformed? ==> front.Bad?)
      && (front.Got? ==>
            var size := |old(packets.os.socks[packets.fd]).unread| - |front.rest|;
            Benign(old(packets.os.socks[packets.fd]).moves, size + more) ==>
              r.Arrived? && Benign(packets.os.socks[packets.fd].moves, more))
  {
    hide Receive, WellFormed, Understood, Benign, Calm, Sum;
    ghost var before := packets.os.socks[packets.fd].unread;
    GotSize(packets.sig, before);
    r := packets.ReceivePacket(0, more);
    PacketTaken(packets.sig, before, packets.os.socks[packets.fd].unread, r);
  }

  /** send_ok or send_exception, as the call ended. */
  method Reply(packets: PacketManager, id: U64, outcome: Outcome, timeout: nat, pad: Padding, ghost more: nat)
    returns (r: Delivery)
    requires WellFormed(packets.sig) && pad.Valid() && packets.fd in packets.os.socks
    requires outcome.Threw? ==> HasType(TEXT, outcome.text)
    modifies packets.os`socks, packets.os`now, packets.os`ticks
    ensures packets.fd in packets.os.socks
      && packets.os.socks == old(packets.os.socks)[packets.fd := packets.os.socks[packets.fd]]
    ensures packets.os.socks[packets.fd].unread == old(packets.os.socks[packets.fd]).unread
    ensures var frame := ReplyFrame(packets.sig, id, outcome, pad.gap, pad.tail);
      && Sends(old(packets.os.socks[packets.fd]).sent, packets.os.socks[packets.fd].sent, frame, r)
      && (r.Unbuildable? <==> frame.None?)
      && (timeout == 0 && frame.Some? && Benign(old(packets.os.socks[packets.fd]).moves, |frame.value| + more) ==>
            r.Delivered? && Benign(packets.os.socks[packets.fd].moves, more))
    ensures var frame, s := ReplyFrame(packets.sig, id, outcome, pad.gap, pad.tail), old(packets.os.socks[packets.fd]);
      frame.Some? && Willing(s, old(packets.os.ticks), |frame.value| + more, timeout, true) ==> r.Delivered?
  {
    hide HasType, WellFormed, FrameOf, ReplyFrame, Benign, Calm, Sum;
    match outcome {
      case Returned => r := packets.Send(KIND_OK, id, 0, NoPayload, timeout, pad, more);
      case Threw(text) => r := packets.Send(KIND_EXCEPTION, id, 0, Text(text), timeout, pad, more);
    }
    ReplyIs(packets.sig, id, outcome, pad);
  }

  /** Makes the call that is asked for, and replies. `room` is what the socket still lets through. */
  method Serve(packets: PacketManager, call: Call, sendTimeout: nat, pad: Padding, target: Val -> Outcome,
               ghost log: seq<Call>, ghost before: Octets, ghost room: nat)
    returns (r: Delivery)
    requires WellFormed(packets.sig) && pad.Valid() && packets.fd in packets.os.socks && Texts(target, log)
    requires target(call.args).Threw? ==> HasType(TEXT, target(call.args).text)
    requires packets.os.socks[packets.fd].sent == before + Replies(packets.sig, target, log, pad)
    modifies packets.os`socks, packets.os`now, packets.os`ticks
    ensures packets.fd in packets.os.socks
      && packets.os.socks == old(packets.os.socks)[packets.fd := packets.os.socks[packets.fd]]
    ensures packets.os.socks[packets.fd].unread == old(packets.os.socks[packets.fd]).unread
    ensures Texts(target, log + [call])
    ensures Answers(packets.sig, target, log + [call], pad, before, packets.os.socks[packets.fd].sent,
                    if r.Delivered? then EXIT_OK else EXIT_IPC_ERROR)
    ensures var all, some := Replies(packets.sig, target, log + [call], pad), Replies(packets.sig, target, log, pad);
      && |some| <= |all|
      && (r.Delivered? ==> packets.os.socks[packets.fd].sent == before + all)
      && (sendTimeout == 0 && |all| - |some| <= room && Benign(old(packets.os.socks[packets.fd]).moves, room) ==>
            if r.Delivered? then Benign(packets.os.socks[packets.fd].moves, room - (|all| - |some|))
            else LastUnbuildable(packets.sig, target, log + [call], pad))
  {
    hide Sends, HasType, WellFormed, ReplyFrame, Benign, Texts, Replies, LastUnbuildable, Answers, Padding.Valid;
    ghost var mid, sig := packets.os.socks[packets.fd].sent, packets.sig;
    MoreReplies(sig, target, log, call, pad);
    ghost var size := |Replies(sig, target, log + [call], pad)| - |Replies(sig, target, log, pad)|;
    r := Reply(packets, call.id, target(call.args), sendTimeout, pad, if size <= room then room - size else 0);
    OneMoreReply(sig, target, log, call, pad, before, mid, packets.os.socks[packets.fd].sent, r);
  }

  /** Between two requests: every reply is on its way, and the socket lets through what is left of `size`. */
  ghost predicate Midway(sig: Ty, target: Val -> Outcome, pad: Padding, was: Sock, log: seq<Call>, now: Sock,
                         size: Option<nat>)
    requires pad.Valid()
  {
    && Texts(target, log) && Behind(sig, was.unread, log, now.unread) && |now.unread| <= |was.unread|
    && now.sent == was.sent + Replies(sig, target, log, pad)
    && var replies := |Replies(sig, target, log, pad)|;
       size.Some? && Benign(was.moves, size.value) && |was.unread| + replies <= size.value ==>
         Benign(now.moves, size.value - (|was.unread| - |now.unread|) - replies)
  }

  /** At the end. A failed transfer had a reason: no whole request was left, the last reply could not be built, or the
      socket does not let as much through. */
  ghost predicate AtEnd(sig: Ty, target: Val -> Outcome, pad: Padding, was: Sock, log: seq<Call>, sent: Octets,
      code: nat,
                        size: Option<nat>)
    requires pad.Valid()
  {
    && code in {EXIT_OK, EXIT_PROTOCOL_ERROR, EXIT_IPC_ERROR} && Texts(target, log)
    && Executes(sig, was.unread, log, code) && Answers(sig, target, log, pad, was.sent, sent, code)
    && (code == EXIT_IPC_ERROR && size.Some? && Benign(was.moves, size.value)
        && |was.unread| + |Replies(sig, target, log, pad)| <= size.value ==>
          OutOfRequests(sig, was.unread, log) || LastUnbuildable(sig, target, log, pad))
  }

  /** One turn of the loop; a code ends it. */
  method OneRequest(packets: PacketManager, sendTimeout: nat, pad: Padding, target: Val -> Outcome,
                    ghost was: Sock, ghost done: seq<Call>, ghost size: Option<nat>)
    returns (code: Option<nat>, ghost log: seq<Call>)
    requires packets.fd in packets.os.socks && WellFormed(packets.sig) && pad.Valid()
    requires forall v :: target(v).Threw? ==> HasType(TEXT, target(v).text)
    requires size.Some? ==> sendTimeout == 0
    requires Midway(packets.sig, target, pad, was, done, packets.os.socks[packets.fd], size)
    modifies packets.os`socks, packets.os`now, packets.os`ticks
    ensures packets.fd in packets.os.socks
      && packets.os.socks == old(packets.os.socks)[packets.fd := packets.os.socks[packets.fd]]
    ensures match code
      case None =>
        && Midway(packets.sig, target, pad, was, log, packets.os.socks[packets.fd], size)
        && |packets.os.socks[packets.fd].unread| < |old(packets.os.socks[packets.fd]).unread|
      case Some(c) =>
        AtEnd(packets.sig, target, pad, was, log, packets.os.socks[packets.fd].sent, c, size)
  {
    hide Receive, HasType, WellFormed, ReplyFrame, ReceiveAll, Sends, Answers, Executes, Behind, Replies, Asks,
      Benign, OutOfRequests, LastUnbuildable, Texts, Padding.Valid;
    ghost var sig, unread, mid := packets.sig, packets.os.socks[packets.fd].unread, packets.os.socks[packets.fd].sent;
    ghost var sent := |Replies(sig, target, done, pad)|;
    ghost var ample := size.Some? && Benign(was.moves, size.value) && |was.unread| + sent <= size.value;
    RestSize(sig, unread);
    ghost var left := if Receive(sig, unread).Got? then |Receive(sig, unread).rest| else 0;
    ghost var room := if ample then size.value - (|was.unread| - left) - sent else 0;
    log := done;
    var reception := NextRequest(packets, room);
    if !reception.Arrived? {
      var failed := if reception.Malformed? then EXIT_PROTOCOL_ERROR else EXIT_IPC_ERROR;
      Ending(sig, was.unread, log, unread, failed);
      AllTaken(sig, was.unread, log, unread);
      Same(sig, target, log, pad, was.sent, mid, failed);
      return Some(failed), log;
    }
    var p := reception.packet;
    NextPacket(sig, was.unread, log, unread, p, packets.os.socks[packets.fd].unread);
    if p.header.kind != KIND_RUN {
      var told := if p.header.kind == KIND_STOP then EXIT_OK else EXIT_PROTOCOL_ERROR;
      LastPacket(sig, was.unread, log, unread, p, told);
      Same(sig, target, log, pad, was.sent, mid, told);
      return Some(told), log;
    }
    RunCarriesArgs(sig, unread);
    var call := Call(p.header.taskId, p.payload.args);
    var delivery := Serve(packets, call, sendTimeout, pad, target, log, was.sent, room);
    TakeCall(sig, was.unread, log, unread, p, call, packets.os.socks[packets.fd].unread);
    log := log + [call];
    if !delivery.Delivered? {
      Ending(sig, was.unread, log, packets.os.socks[packets.fd].unread, EXIT_IPC_ERROR);
      return Some(EXIT_IPC_ERROR), log;
    }
    code := None;
  }

  /** Runs the target on every request until it is told to stop, the input is malformed, or a transfer fails. Outcomes
      are those of a pure target; a call that kills the process ends the loop wherever it stands. Over a blocking socket
      that lets `size` bytes through, a transfer fails only for want of a request, or of bytes for a reply. */
  method ChildLoop(os: Kernel, fd: int, sig: Ty, sendTimeout: nat, pad: Padding, target: Val -> Outcome,
      ghost size: nat)
    returns (code: nat, ghost log: seq<Call>)
    requires fd in os.socks && WellFormed(sig) && pad.Valid()
    requires forall v :: target(v).Threw? ==> HasType(TEXT, target(v).text)
    modifies os`socks, os`closed, os`log, os`now, os`ticks
    ensures os.socks == old(os.socks) - {fd} && |os.closed| == |old(os.closed)| + 1
    ensures os.closed[..|old(os.closed)|] == old(os.closed)
    ensures code in {EXIT_OK, EXIT_PROTOCOL_ERROR, EXIT_IPC_ERROR}
    ensures Executes(sig, old(os.socks[fd]).unread, log, code)
    ensures Texts(target, log)
      && Answers(sig, target, log, pad, old(os.socks[fd]).sent, os.closed[|old(os.closed)|], code)
    ensures sendTimeout == 0 && Benign(old(os.socks[fd]).moves, size) && code == EXIT_IPC_ERROR ==>
      || |old(os.socks[fd]).unread| + |Replies(sig, target, log, pad)| > size
      || OutOfRequests(sig, old(os.socks[fd]).unread, log) || LastUnbuildable(sig, target, log, pad)
  {
    hide HasType, WellFormed, Answers, Executes, Midway, Replies, Benign, OutOfRequests, LastUnbuildable, Texts,
      Padding.Valid;
    ghost var was, most := os.socks[fd], if sendTimeout == 0 then Some(size) else None;
    var packets := new PacketManager(os, fd, sig);
    var end: Option<nat> := None;
    log := [];
    Start(sig, target, pad, was, most);
    while end.None?
      invariant fd in os.socks && os.socks == old(os.socks)[fd := os.socks[fd]] && os.closed == old(os.closed)
      invariant end.None? ==> Midway(sig, target, pad, was, log, os.socks[fd], most)
      invariant end.Some? ==> AtEnd(sig, target, pad, was, log, os.socks[fd].sent, end.value, most)
      decreases end.None?, |os.socks[fd].unread|
    {
      end, log := OneRequest(packets, sendTimeout, pad, target, was, log, most);
    }
    code := end.value;
    os.Close(fd);
  }

  lemma ReplyIs(sig: Ty, id: U64, outcome: Outcome, pad: Padding)
    requires pad.Valid() && (outcome.Threw? ==> HasType(TEXT, outcome.text))
    ensures ReplyFrame(sig, id, outcome, pad.gap, pad.tail) == match outcome
      case Returned => FrameOf(sig, KIND_OK, id, 0, NoPayload, pad.gap, pad.tail)
      case Threw(text) => FrameOf(sig, KIND_EXCEPTION, id, 0, Text(text), pad.gap, pad.tail)
  {}

  lemma Same(sig: Ty, target: Val -> Outcome, log: seq<Call>, pad: Padding, before: Octets, after: Octets, code: nat)
    requires pad.Valid() && Texts(target, log) && after == before + Replies(sig, target, log, pad)
    ensures Answers(sig, target, log, pad, before, after, code)
  {
    hide ReplyFrame, HasType;
    if log != [] {
      var call := log[|log| - 1];
      var reply := ReplyFrame(sig, call.id, target(call.args), pad.gap, pad.tail);
      var bytes := if reply.Some? then reply.value else [];
      var front := Replies(sig, target, log[..|log| - 1], pad);
      assert Replies(sig, target, log, pad) == front + bytes;
      hide Replies;
      PartAppended(before, front, bytes, before + front, after, |bytes|);
    }
  }

  lemma Ending(sig: Ty, input: Octets, log: seq<Call>, unread: Octets, code: nat)
    requires Behind(sig, input, log, unread)
    requires code == EXIT_IPC_ERROR || (code == EXIT_PROTOCOL_ERROR && Receive(sig, unread).Bad?)
    ensures Executes(sig, input, log, code)
  {}

  // ---- What this means for the parent -------------------------------------------------------

  /** A child that was given whole requests followed by a stop and exits normally has made exactly those calls, in
      that order, each once. */
  lemma AllRequestsExecuted(sig: Ty, frames: seq<Octets>, ps: seq<Packet>, calls: seq<Call>, log: seq<Call>)
    requires AreFrames(sig, frames, ps) && |ps| == |calls| + 1 && ps[|calls|].header.kind == KIND_STOP
    requires forall k | 0 <= k < |calls| :: Asks(ps[k], calls[k])
    requires Executes(sig, Concat(frames), log, EXIT_OK)
    ensures log == calls
  {
    StreamRoundTrip(sig, frames, ps);
    SameStop(ps, |log|, |calls|);
    assert forall k | 0 <= k < |log| :: Asks(ps[k], log[k]) && Asks(ps[k], calls[k]);
  }

  /** There is one place where the requests end. */
  lemma SameStop(ps: seq<Packet>, n: nat, m: nat)
    requires n < |ps| && ps[n].header.kind == KIND_STOP && forall k | 0 <= k < n :: ps[k].header.kind == KIND_RUN
    requires m < |ps| && ps[m].header.kind == KIND_STOP && forall k | 0 <= k < m :: ps[k].header.kind == KIND_RUN
    ensures n == m
  {}

  /** A child that was given only a strict prefix of a frame calls nothing, whatever its exit code. */
  lemma PartialRequestNeverExecuted(sig: Ty, frame: Octets, p: Packet, cut: nat, log: seq<Call>, code: nat)
    requires IsFrame(sig, frame, p) && cut < |frame| && Executes(sig, frame[..cut], log, code)
    ensures log == [] && code !in {EXIT_OK, EXIT_PROTOCOL_ERROR}
  {
    PrefixWaits(sig, frame, p, cut);
  }
}
