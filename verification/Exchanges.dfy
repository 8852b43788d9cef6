/** Whole conversations: a list of packets sent one after the other through one packet manager, and received one after
    the other by another. */
module Exchanges {
  import opened Bytes
  import opened Codec
  import opened Frame
  import opened Transport

  /** What a caller hands to one of the send functions, and what arrives. */
  datatype Letter = Letter(kind: Byte, taskId: U64, flags: U16, payload: Payload)

  predicate Typed(sig: Ty, ls: seq<Letter>) {
    forall k | 0 <= k < |ls| :: PayloadTyped(sig, ls[k].payload)
  }

  /** The frame of a letter; `None` when building it throws. */
  function Framed(sig: Ty, pad: Padding, l: Letter): Option<Octets>
    requires PayloadTyped(sig, l.payload) && pad.Valid()
  {
    FrameOf(sig, l.kind, l.taskId, l.flags, l.payload, pad.gap, pad.tail)
  }

  predicate Sendable(sig: Ty, pad: Padding, ls: seq<Letter>)
    requires Typed(sig, ls) && pad.Valid()
  {
    forall k | 0 <= k < |ls| :: Framed(sig, pad, ls[k]).Some?
  }

  function Frames(sig: Ty, pad: Padding, ls: seq<Letter>): seq<Octets>
    requires Typed(sig, ls) && pad.Valid() && Sendable(sig, pad, ls)
  {
    seq(|ls|, k requires 0 <= k < |ls| => Framed(sig, pad, ls[k]).value)
  }

  /** The bytes of whole letters, one frame after the other. */
  function Stream(sig: Ty, pad: Padding, ls: seq<Letter>): Octets
    requires Typed(sig, ls) && pad.Valid() && Sendable(sig, pad, ls)
  {
    Concat(Frames(sig, pad, ls))
  }

  predicate Carries(p: Packet, l: Letter) {
    p.header.kind == l.kind && p.header.taskId == l.taskId && p.header.flags == l.flags && p.payload == l.payload
  }

  /** The packets are those of the letters, in order. */
  predicate CarryAll(ps: seq<Packet>, ls: seq<Letter>) {
    |ps| == |ls| && forall k | 0 <= k < |ps| :: Carries(ps[k], ls[k])
  }

  // ---- Sending ----------------------------------------------------------------------------

  /** `part` is what a failed send left behind the whole letters: a strict prefix of the next frame. */
  predicate PartOf(sig: Ty, pad: Padding, ls: seq<Letter>, k: nat, part: Octets)
    requires Typed(sig, ls) && pad.Valid() && k <= |ls|
  {
    part == [] ||
    (k < |ls| && Framed(sig, pad, ls[k]).Some? && |part| < |Framed(sig, pad, ls[k]).value|
     && part == Framed(sig, pad, ls[k]).value[..|part|])
  }

  lemma {:induction false} ConcatLast(frames: seq<Octets>, frame: Octets)
    ensures Concat(frames + [frame]) == Concat(frames) + frame
  {
    if frames == [] {
      assert frames + [frame] == [frame] && [frame][1..] == [];
    } else {
      assert (frames + [frame])[1..] == frames[1..] + [frame];
      ConcatLast(frames[1..], frame);
    }
  }

  lemma OneMoreSent(sig: Ty, pad: Padding, ls: seq<Letter>, k: nat)
    requires Typed(sig, ls) && pad.Valid() && k < |ls| && Sendable(sig, pad, ls[..k]) && Framed(sig, pad, ls[k]).Some?
    ensures Sendable(sig, pad, ls[..k + 1])
    ensures Stream(sig, pad, ls[..k + 1]) == Stream(sig, pad, ls[..k]) + Framed(sig, pad, ls[k]).value
  {
    hide Framed;
    var frame := Framed(sig, pad, ls[k]).value;
    var more := ls[..k + 1];
    forall j | 0 <= j < |more|
      ensures Framed(sig, pad, more[j]).Some?
    {
      assert j < k ==> more[j] == ls[..k][j];
    }
    assert Frames(sig, pad, ls[..k + 1]) == Frames(sig, pad, ls[..k]) + [frame];
    ConcatLast(Frames(sig, pad, ls[..k]), frame);
  }

  lemma OneLessToSend(sig: Ty, pad: Padding, ls: seq<Letter>, k: nat)
    requires Typed(sig, ls) && pad.Valid() && k < |ls| && Sendable(sig, pad, ls)
    ensures Stream(sig, pad, ls[k..]) == Framed(sig, pad, ls[k]).value + Stream(sig, pad, ls[k + 1..])
  {
    hide Framed;
    assert Frames(sig, pad, ls[k..])[1..] == Frames(sig, pad, ls[k + 1..]);
  }

  /** Sends the letters in order until a send throws. Whatever the kernel does, the stream gains the whole letters
      that were sent and at most a part of the next one; a willing kernel lets all of them through. */
  method SendEach(packets: PacketManager, ls: seq<Letter>, timeout: nat, pad: Padding)
    returns (k: nat, ghost part: Octets)
    requires WellFormed(packets.sig) && Typed(packets.sig, ls) && pad.Valid() && packets.fd in packets.os.socks
    modifies packets.os`socks, packets.os`now, packets.os`ticks
    ensures packets.fd in packets.os.socks
      && packets.os.socks == old(packets.os.socks)[packets.fd := packets.os.socks[packets.fd]]
    ensures k <= |ls| && Sendable(packets.sig, pad, ls[..k]) && PartOf(packets.sig, pad, ls, k, part)
    ensures packets.os.socks[packets.fd].sent ==
      old(packets.os.socks[packets.fd]).sent + Stream(packets.sig, pad, ls[..k]) + part
    ensures Sendable(packets.sig, pad, ls) ==>
      var size := |Stream(packets.sig, pad, ls)|;
      Willing(old(packets.os.socks[packets.fd]), old(packets.os.ticks), size, timeout, true) ==> k == |ls|
  {
    hide Framed, FrameOf, Willing, Stream, WellFormed;
    var os, fd, sig := packets.os, packets.fd, packets.sig;
    ghost var before := os.socks[fd].sent;
    ghost var good := Sendable(sig, pad, ls)
      && Willing(os.socks[fd], os.ticks, |Stream(sig, pad, ls)|, timeout, true);
    k, part := 0, [];
    assert ls[0..] == ls;
    NothingSent(sig, pad, ls, before);
    while k < |ls|
      invariant k <= |ls| && fd in os.socks && os.socks == old(os.socks)[fd := os.socks[fd]]
      invariant Sendable(sig, pad, ls[..k]) && os.socks[fd].sent == before + Stream(sig, pad, ls[..k])
      invariant part == [] && os.socks[fd].sent + [] == os.socks[fd].sent
      invariant good ==> Willing(os.socks[fd], os.ticks, |Stream(sig, pad, ls[k..])|, timeout, true)
    {
      ghost var mid, more := os.socks[fd].sent, 0;
      if good {
        OneLessToSend(sig, pad, ls, k);
        more := |Stream(sig, pad, ls[k + 1..])|;
      }
      var l := ls[k];
      var r := packets.Send(l.kind, l.taskId, l.flags, l.payload, timeout, pad, more);
      FrameIs(sig, pad, l);
      if !r.Delivered? {
        part := os.socks[fd].sent[|mid|..];
        TornPart(sig, pad, ls, k, mid, os.socks[fd].sent, r);
        return;
      }
      OneMoreSent(sig, pad, ls, k);
      WholeSent(mid, os.socks[fd].sent, Framed(sig, pad, l).value);
      k := k + 1;
    }
    assert ls[..k] == ls;
  }

  lemma FrameIs(sig: Ty, pad: Padding, l: Letter)
    requires PayloadTyped(sig, l.payload) && pad.Valid()
    ensures Framed(sig, pad, l) == FrameOf(sig, l.kind, l.taskId, l.flags, l.payload, pad.gap, pad.tail)
  {}

  lemma NothingSent(sig: Ty, pad: Padding, ls: seq<Letter>, before: Octets)
    requires Typed(sig, ls) && pad.Valid()
    ensures Sendable(sig, pad, ls[..0]) && before + Stream(sig, pad, ls[..0]) == before
  {}

  lemma WholeSent(mid: Octets, after: Octets, frame: Octets)
    requires Wrote(mid, after, frame, true)
    ensures after == mid + frame
  {
    assert frame[..|frame|] == frame;
  }

  lemma TornPart(sig: Ty, pad: Padding, ls: seq<Letter>, k: nat, mid: Octets, after: Octets, r: Delivery)
    requires Typed(sig, ls) && pad.Valid() && k < |ls| && !r.Delivered? && Sends(mid, after, Framed(sig, pad, ls[k]), r)
    ensures |mid| <= |after| && PartOf(sig, pad, ls, k, after[|mid|..]) && after == mid + after[|mid|..]
  {
    hide Framed;
  }

  // ---- Receiving --------------------------------------------------------------------------

  predicate EndOf(u: Octets, s: Octets) {
    |u| <= |s| && u == s[|s| - |u|..]
  }

  /** Receives until a receive throws. Whatever the kernel does, the packets are the first of those that stand in the
      stream; a willing kernel hands out all of them, and leaves nothing of them in the stream. */
  method ReceiveEach(packets: PacketManager, timeout: nat) returns (ps: seq<Packet>)
    requires WellFormed(packets.sig) && packets.fd in packets.os.socks
    modifies packets.os`socks, packets.os`now, packets.os`ticks
    ensures packets.fd in packets.os.socks
      && packets.os.socks == old(packets.os.socks)[packets.fd := packets.os.socks[packets.fd]]
    ensures ps <= ReceiveAll(packets.sig, old(packets.os.socks[packets.fd]).unread).0
    ensures Willing(old(packets.os.socks[packets.fd]), old(packets.os.ticks),
                    |old(packets.os.socks[packets.fd]).unread|, timeout, false) ==>
              ps == ReceiveAll(packets.sig, old(packets.os.socks[packets.fd]).unread).0
              && EndOf(packets.os.socks[packets.fd].unread,
                       ReceiveAll(packets.sig, old(packets.os.socks[packets.fd]).unread).1)
  {
    hide Receive, Willing, ReceiveAll, WellFormed, Understood, EndOf;
    var os, fd, sig := packets.os, packets.fd, packets.sig;
    ghost var (all, left) := ReceiveAll(sig, os.socks[fd].unread);
    ghost var good := Willing(os.socks[fd], os.ticks, |os.socks[fd].unread|, timeout, false);
    ps := [];
    while true
      invariant fd in os.socks && os.socks == old(os.socks)[fd := os.socks[fd]]
      invariant all == ps + ReceiveAll(sig, os.socks[fd].unread).0 && left == ReceiveAll(sig, os.socks[fd].unread).1
      invariant good ==> Willing(os.socks[fd], os.ticks, |os.socks[fd].unread|, timeout, false)
      decreases |os.socks[fd].unread|
    {
      ghost var unread := os.socks[fd].unread;
      FrontPacket(sig, unread);
      var r := packets.ReceivePacket(timeout, if Receive(sig, unread).Got? then |Receive(sig, unread).rest| else 0);
      PacketTaken(sig, unread, os.socks[fd].unread, r);
      if !r.Arrived? {
        RestIsEnd(sig, unread, os.socks[fd].unread, r);
        return;
      }
      ps := ps + [r.packet];
    }
  }

  lemma FrontPacket(sig: Ty, s: Octets)
    ensures !Receive(sig, s).Got? ==> ReceiveAll(sig, s) == ([], s)
    ensures Receive(sig, s).Got? ==>
      var rest := Receive(sig, s).rest;
      && |rest| < |s| && ReceiveAll(sig, s).0 == [Receive(sig, s).packet] + ReceiveAll(sig, rest).0
      && ReceiveAll(sig, s).1 == ReceiveAll(sig, rest).1
  {
    hide Receive;
    if Receive(sig, s).Got? {
      FrameLength(sig, s);
    }
  }

  lemma RestIsEnd(sig: Ty, before: Octets, after: Octets, r: Reception)
    requires Understood(sig, before, after, r)
    ensures EndOf(after, before)
  {
    hide Receive, IsFrame;
  }

  // ---- Both ends --------------------------------------------------------------------------

  /** Whole letters with a part of another behind them are received as exactly these letters, and leave the part. */
  lemma {:induction false} StreamCarries(sig: Ty, pad: Padding, ls: seq<Letter>, part: Octets)
    requires WellFormed(sig) && Typed(sig, ls) && pad.Valid() && Sendable(sig, pad, ls)
      && Receive(sig, part) == Incomplete
    ensures CarryAll(ReceiveAll(sig, Stream(sig, pad, ls) + part).0, ls)
      && ReceiveAll(sig, Stream(sig, pad, ls) + part).1 == part
    decreases |ls|
  {
    hide Receive, FrameOf, WellFormed;
    if ls == [] {
      assert [] + part == part;
    } else {
      StreamCarries(sig, pad, ls[1..], part);
      assert ls[0..] == ls;
      OneLessToSend(sig, pad, ls, 0);
      var l := ls[0];
      var frame, later := Framed(sig, pad, l).value, Stream(sig, pad, ls[1..]) + part;
      FrameRoundTrip(sig, l.kind, l.taskId, l.flags, l.payload, pad.gap, pad.tail);
      var p :| IsFrame(sig, frame, p) && Carries(p, l);
      ReceiveFirst(sig, frame, p, later);
      assert Stream(sig, pad, ls) + part == frame + later;
    }
  }

  lemma PartIncomplete(sig: Ty, pad: Padding, ls: seq<Letter>, k: nat, part: Octets)
    requires WellFormed(sig) && Typed(sig, ls) && pad.Valid() && k <= |ls| && PartOf(sig, pad, ls, k, part)
    ensures Receive(sig, part) == Incomplete
  {
    if part != [] {
      hide Receive, FrameOf, WellFormed;
      var l := ls[k];
      var frame := Framed(sig, pad, l).value;
      FrameRoundTrip(sig, l.kind, l.taskId, l.flags, l.payload, pad.gap, pad.tail);
      var p :| IsFrame(sig, frame, p);
      PrefixWaits(sig, frame, p, |part|);
    }
  }

  /** A list of letters sent at one end of a socket and received at the other, in two processes. What the receiver
      finds is what the sender wrote. However transfers are split, shortened, interrupted or cut off, the letters
      received are the first of the letters sent, unaltered and in order; when the receiver's kernel is willing they
      are all that were sent, and when the sender's is as well, they are the whole list and the stream ends empty. */
  method Exchange(a: PacketManager, b: PacketManager, ls: seq<Letter>, sendTimeout: nat, receiveTimeout: nat,
      pad: Padding)
    returns (k: nat, ps: seq<Packet>)
    requires a.os != b.os && a.sig == b.sig && WellFormed(a.sig) && Typed(a.sig, ls) && pad.Valid()
    requires a.fd in a.os.socks && b.fd in b.os.socks
    modifies a.os`socks, a.os`now, a.os`ticks, b.os`socks, b.os`now, b.os`ticks
    ensures a.fd in a.os.socks && b.fd in b.os.socks && old(a.os.socks[a.fd]).sent <= a.os.socks[a.fd].sent
    ensures old(b.os.socks[b.fd]).unread == a.os.socks[a.fd].sent[|old(a.os.socks[a.fd]).sent|..] ==>
      && |ps| <= k <= |ls| && CarryAll(ps, ls[..|ps|])
      && (Willing(old(b.os.socks[b.fd]), old(b.os.ticks), |old(b.os.socks[b.fd]).unread|, receiveTimeout, false) ==>
            |ps| == k && (k == |ls| ==> b.os.socks[b.fd].unread == []))
    ensures Sendable(a.sig, pad, ls) ==>
      Willing(old(a.os.socks[a.fd]), old(a.os.ticks), |Stream(a.sig, pad, ls)|, sendTimeout, true) ==> k == |ls|
  {
    hide Receive, ReceiveAll, Willing, Stream, WellFormed, Carries, PartOf, EndOf;
    ghost var before, unread := a.os.socks[a.fd].sent, b.os.socks[b.fd].unread;
    ghost var part: Octets;
    k, part := SendEach(a, ls, sendTimeout, pad);
    ghost var written := Stream(a.sig, pad, ls[..k]) + part;
    assert a.os.socks[a.fd].sent == before + written;
    PartIncomplete(a.sig, pad, ls, k, part);
    StreamCarries(a.sig, pad, ls[..k], part);
    ps := ReceiveEach(b, receiveTimeout);
    if k == |ls| && EndOf(b.os.socks[b.fd].unread, part) {
      AllTaken(a.sig, pad, ls, k, part, b.os.socks[b.fd].unread);
    }
  }

  lemma AllTaken(sig: Ty, pad: Padding, ls: seq<Letter>, k: nat, part: Octets, unread: Octets)
    requires Typed(sig, ls) && pad.Valid() && k == |ls| && PartOf(sig, pad, ls, k, part) && EndOf(unread, part)
    ensures unread == []
  {}
}
