/** The packet frame: a fixed header followed by a serialized payload. */
module Frame {
  import opened Bytes
  import opened Codec
  import opened CodecLaws
  import opened Weights

  const PACKET_MAGIC: nat := 0x48505a5a
  const PACKET_VERSION: nat := 1

  /** sizeof(packet_header): twelve bytes of fields, four of padding, the task id, the payload size, four of padding. */
  const HEADER_SIZE: nat := 32

  const KIND_RUN: Byte := 1
  const KIND_OK: Byte := 2
  const KIND_EXCEPTION: Byte := 3
  const KIND_STOP: Byte := 4
  const KIND_PROTOCOL_ERROR: Byte := 5

  const PAYLOAD_NONE: Byte := 0
  const PAYLOAD_TUPLE: Byte := 1
  const PAYLOAD_TEXT: Byte := 2

  type U16 = n: int | 0 <= n < 0x1_0000
  type U32 = n: int | 0 <= n < 0x1_0000_0000
  type U64 = n: int | 0 <= n < 0x1_0000_0000_0000_0000

  datatype Header = Header(magic: U32, version: U16, headerSize: U16, kind: Byte, payloadKind: Byte,
                           flags: U16, taskId: U64, payloadSize: U32)

  datatype Payload = NoPayload | Args(args: Val) | Text(text: Val)

  datatype Packet = Packet(header: Header, payload: Payload)

  /** std::string. */
  const TEXT: Ty := Str(Raw(1))

  /** What packet_manager::receive makes of the bytes that have arrived so far: it still waits, it
      throws protocol_error, or it returns a packet and leaves the rest unread. */
  datatype Received = Incomplete | Bad | Got(packet: Packet, rest: Octets)

  /** The object representation of a header; the two padding gaps hold arbitrary bytes. */
  function HeaderBytes(h: Header, gap: Octets, tail: Octets): (s: Octets)
    requires |gap| == 4 && |tail| == 4
    ensures |s| == HEADER_SIZE
  {
    Widths();
    ToLE(h.magic, 4) + ToLE(h.version, 2) + ToLE(h.headerSize, 2) + [h.kind, h.payloadKind] + ToLE(h.flags, 2)
    + gap + ToLE(h.taskId, 8) + ToLE(h.payloadSize, 4) + tail
  }

  function ParseHeader(s: Octets): Header
    requires |s| == HEADER_SIZE
  {
    Widths();
    Header(FromLE(s[0..4]), FromLE(s[4..6]), FromLE(s[6..8]), s[8], s[9], FromLE(s[10..12]),
           FromLE(s[16..24]), FromLE(s[24..28]))
  }

  /** validate_header does not throw. */
  predicate ValidHeader(h: Header) {
    && h.magic == PACKET_MAGIC
    && h.version == PACKET_VERSION
    && h.headerSize == HEADER_SIZE
    && h.payloadKind in {PAYLOAD_NONE, PAYLOAD_TUPLE, PAYLOAD_TEXT}
    && h.kind in {KIND_RUN, KIND_OK, KIND_EXCEPTION, KIND_STOP, KIND_PROTOCOL_ERROR}
    && (h.kind == KIND_RUN ==> h.payloadKind == PAYLOAD_TUPLE)
    && (h.kind == KIND_STOP ==> h.payloadKind == PAYLOAD_NONE)
    && (h.kind in {KIND_EXCEPTION, KIND_PROTOCOL_ERROR} ==> h.payloadKind == PAYLOAD_TEXT)
    && (h.payloadKind == PAYLOAD_NONE ==> h.payloadSize == 0)
  }

  /** decode_packet; `sig` is the tuple of the target's argument types. */
  function DecodePayload(sig: Ty, h: Header, bytes: Octets): Option<Payload>
  {
    if h.payloadKind == PAYLOAD_NONE then Some(NoPayload)
    else if h.payloadKind == PAYLOAD_TUPLE then
      match FromBytes(sig, bytes) case Some(v) => Some(Args(v)) case None => None
    else
      match FromBytes(TEXT, bytes) case Some(v) => Some(Text(v)) case None => None
  }

  function Receive(sig: Ty, s: Octets): Received {
    if |s| < HEADER_SIZE then Incomplete
    else
      var h := ParseHeader(s[..HEADER_SIZE]);
      if !ValidHeader(h) then Bad
      else if |s| < HEADER_SIZE + h.payloadSize then Incomplete
      else match DecodePayload(sig, h, s[HEADER_SIZE..HEADER_SIZE + h.payloadSize])
        case None => Bad
        case Some(payload) => Got(Packet(h, payload), s[HEADER_SIZE + h.payloadSize..])
  }

  /** `frame` is one whole frame of `p` and nothing else. */
  predicate IsFrame(sig: Ty, frame: Octets, p: Packet) {
    Receive(sig, frame) == Got(p, [])
  }

  // ---- Sending ----------------------------------------------------------------------------

  function MakeHeader(kind: Byte, payloadKind: Byte, taskId: U64, flags: U16, size: nat): (r: Option<Header>)
    ensures r.Some? ==> ValidHeader(r.value)
  {
    if size > 0xffff_ffff then None
    else
      var h := Header(PACKET_MAGIC, PACKET_VERSION, HEADER_SIZE, kind, payloadKind, flags, taskId, size);
      if ValidHeader(h) then Some(h) else None
  }

  /** What send_packet writes when the transport takes everything; `None` when building the frame throws. */
  function MakeFrame(kind: Byte, payloadKind: Byte, taskId: U64, flags: U16, payload: Option<Octets>,
                     gap: Octets, tail: Octets): Option<Octets>
    requires |gap| == 4 && |tail| == 4
  {
    if payload.None? then None
    else match MakeHeader(kind, payloadKind, taskId, flags, |payload.value|)
      case None => None
      case Some(h) => Some(HeaderBytes(h, gap, tail) + payload.value)
  }

  /** The payload bytes a packet is sent with. */
  function PayloadBytes(sig: Ty, payload: Payload): Option<Octets>
    requires PayloadTyped(sig, payload)
  {
    match payload
    case NoPayload => Some([])
    case Args(v) => ToBytes(sig, v)
    case Text(v) => ToBytes(TEXT, v)
  }

  predicate PayloadTyped(sig: Ty, payload: Payload) {
    match payload
    case NoPayload => true
    case Args(v) => HasType(sig, v)
    case Text(v) => HasType(TEXT, v)
  }

  function PayloadKindOf(payload: Payload): Byte {
    match payload
    case NoPayload => PAYLOAD_NONE
    case Args(_) => PAYLOAD_TUPLE
    case Text(_) => PAYLOAD_TEXT
  }

  /** The frame of a packet of this kind with this payload. */
  function FrameOf(sig: Ty, kind: Byte, taskId: U64, flags: U16, payload: Payload, gap: Octets,
      tail: Octets): Option<Octets>
    requires PayloadTyped(sig, payload) && |gap| == 4 && |tail| == 4
  {
    MakeFrame(kind, PayloadKindOf(payload), taskId, flags, PayloadBytes(sig, payload), gap, tail)
  }

  // ---- Laws -------------------------------------------------------------------------------

  lemma HeaderRoundTrip(h: Header, gap: Octets, tail: Octets)
    requires |gap| == 4 && |tail| == 4
    ensures ParseHeader(HeaderBytes(h, gap, tail)) == h
  {
    Widths();
    var s := HeaderBytes(h, gap, tail);
    assert s[0..4] == ToLE(h.magic, 4) && s[4..6] == ToLE(h.version, 2) && s[6..8] == ToLE(h.headerSize, 2);
    assert s[8] == h.kind && s[9] == h.payloadKind && s[10..12] == ToLE(h.flags, 2);
    assert s[16..24] == ToLE(h.taskId, 8) && s[24..28] == ToLE(h.payloadSize, 4);
    FromToLE(h.magic, 4);
    FromToLE(h.version, 2);
    FromToLE(h.headerSize, 2);
    FromToLE(h.flags, 2);
    FromToLE(h.taskId, 8);
    FromToLE(h.payloadSize, 4);
  }

  /** Where the fields of a header stand. */
  lemma HeaderLayout(h: Header, gap: Octets, tail: Octets)
    requires ValidHeader(h) && |gap| == 4 && |tail| == 4
    ensures var s := HeaderBytes(h, gap, tail);
      && s[..10] == [0x5a, 0x5a, 0x50, 0x48, 1, 0, 32, 0, h.kind, h.payloadKind]
      && FromLE(s[10..12]) == h.flags && FromLE(s[16..24]) == h.taskId && FromLE(s[24..28]) == h.payloadSize
      && s[12..16] == gap && s[28..] == tail
  {
    Widths();
    var s := HeaderBytes(h, gap, tail);
    HeaderRoundTrip(h, gap, tail);
    HeaderAcceptedIff(s);
  }

  /** The header bytes that validation accepts. */
  lemma HeaderAcceptedIff(s: Octets)
    requires |s| == 32
    ensures ValidHeader(ParseHeader(s)) <==>
      && s[..8] == [0x5a, 0x5a, 0x50, 0x48, 1, 0, 32, 0] && 1 <= s[8] <= 5 && s[9] <= 2
      && (s[8] == 1 ==> s[9] == 1) && (s[8] == 4 ==> s[9] == 0) && (s[8] == 3 || s[8] == 5 ==> s[9] == 2)
      && (s[9] == 0 ==> s[24..28] == [0, 0, 0, 0])
  {
    FourBytes(s[0..4]);
    TwoBytes(s[4..6]);
    TwoBytes(s[6..8]);
    FourBytes(s[24..28]);
    assert s[0..4] == [s[0], s[1], s[2], s[3]] && s[4..6] == [s[4], s[5]] && s[6..8] == [s[6], s[7]];
    assert s[24..28] == [s[24], s[25], s[26], s[27]];
    assert s[..8] == [s[0], s[1], s[2], s[3], s[4], s[5], s[6], s[7]];
  }

  /** What validation asks of the kinds: a run carries a tuple, a stop nothing, the two kinds of failure a text. */
  predicate Acceptable(kind: Byte, payloadKind: Byte, size: nat) {
    && payloadKind <= 2
    && match kind
       case 1 => payloadKind == 1
       case 2 => payloadKind == 0 ==> size == 0
       case 3 => payloadKind == 2
       case 4 => payloadKind == 0 && size == 0
       case 5 => payloadKind == 2
       case _ => false
  }

  lemma AcceptableIff(kind: Byte, payloadKind: Byte, taskId: U64, flags: U16, size: nat)
    ensures MakeHeader(kind, payloadKind, taskId, flags, size).Some? <==>
      size <= 0xffff_ffff && Acceptable(kind, payloadKind, size)
  {}

  /** How many payload bytes a packet takes, counted on the payload. */
  function Load(sig: Ty, payload: Payload): nat
    requires PayloadTyped(sig, payload)
  {
    match payload
    case NoPayload => 0
    case Args(v) => Weight(sig, v)
    case Text(v) => Weight(TEXT, v)
  }

  /** The payload a packet of this kind has. */
  predicate KindTakes(kind: Byte, payload: Payload) {
    match kind
    case 1 => payload.Args?
    case 2 => true
    case 3 => payload.Text?
    case 4 => payload.NoPayload?
    case 5 => payload.Text?
    case _ => false
  }

  /** A packet can be built exactly when its payload has the kind that its own kind asks for and at most 2^32 - 1 bytes;
      then the frame is these bytes behind a header of 32. */
  lemma FrameBuildableIff(sig: Ty, kind: Byte, taskId: U64, flags: U16, payload: Payload, gap: Octets, tail: Octets)
    requires WellFormed(sig) && PayloadTyped(sig, payload) && |gap| == 4 && |tail| == 4
    ensures var frame := FrameOf(sig, kind, taskId, flags, payload, gap, tail);
      && (frame.Some? <==> Load(sig, payload) <= 0xffff_ffff && KindTakes(kind, payload))
      && (frame.Some? ==> |frame.value| == 32 + Load(sig, payload))
  {
    hide HasType, Enc, Weight, WellFormed, HeaderBytes;
    match payload {
      case NoPayload =>
      case Args(v) => EncodableIff(sig, v, 0xffff_ffff);
      case Text(v) =>
        TextWellFormed();
        EncodableIff(TEXT, v, 0xffff_ffff);
    }
  }

  lemma TextWellFormed()
    ensures WellFormed(TEXT)
  {}

  /** Receiving what was sent gives back the packet, whatever the padding bytes are. */
  lemma FrameRoundTrip(sig: Ty, kind: Byte, taskId: U64, flags: U16, payload: Payload, gap: Octets, tail: Octets)
    requires WellFormed(sig) && PayloadTyped(sig, payload) && |gap| == 4 && |tail| == 4
    requires FrameOf(sig, kind, taskId, flags, payload, gap, tail).Some?
    ensures var frame := FrameOf(sig, kind, taskId, flags, payload, gap, tail).value;
      exists p :: IsFrame(sig, frame, p) && p.header.kind == kind && p.header.taskId == taskId
        && p.header.flags == flags && p.payload == payload
  {
    hide HeaderBytes, ParseHeader, HasType, ToBytes, FromBytes;
    var bytes := PayloadBytes(sig, payload).value;
    var h := MakeHeader(kind, PayloadKindOf(payload), taskId, flags, |bytes|).value;
    var frame := HeaderBytes(h, gap, tail) + bytes;
    HeaderRoundTrip(h, gap, tail);
    assert frame[..HEADER_SIZE] == HeaderBytes(h, gap, tail);
    assert frame[HEADER_SIZE..HEADER_SIZE + h.payloadSize] == bytes;
    match payload {
      case NoPayload =>
      case Args(v) => ApiRoundTrip(sig, v);
      case Text(v) => ApiRoundTrip(TEXT, v);
    }
    assert IsFrame(sig, frame, Packet(h, payload));
  }

  /** Once decided, the outcome of a receive does not depend on later bytes. */
  lemma ReceiveExtends(sig: Ty, s: Octets, q: Octets)
    ensures Receive(sig, s).Bad? ==> Receive(sig, s + q).Bad?
    ensures Receive(sig, s).Got? ==> Receive(sig, s + q) == Got(Receive(sig, s).packet, Receive(sig, s).rest + q)
  {
    hide ParseHeader, ValidHeader, DecodePayload;
    if |s| >= HEADER_SIZE {
      SliceExtends(s, q, 0, HEADER_SIZE);
      var end := HEADER_SIZE + ParseHeader(s[..HEADER_SIZE]).payloadSize;
      if |s| >= end {
        SliceExtends(s, q, HEADER_SIZE, end);
      }
    }
  }

  lemma SliceExtends(s: Octets, q: Octets, a: nat, b: nat)
    requires a <= b <= |s|
    ensures (s + q)[a..b] == s[a..b] && (s + q)[b..] == s[b..] + q
    ensures a == 0 ==> (s + q)[..b] == s[..b]
  {}

  /** A strict prefix of one frame never produces a packet and is never taken for a bad frame: the
      receiver waits. */
  lemma PrefixWaits(sig: Ty, frame: Octets, p: Packet, cut: nat)
    requires IsFrame(sig, frame, p) && cut < |frame|
    ensures Receive(sig, frame[..cut]) == Incomplete
  {
    ReceiveExtends(sig, frame[..cut], frame[cut..]);
    assert frame[..cut] + frame[cut..] == frame;
  }

  /** A frame has at least a header. */
  lemma FrameLength(sig: Ty, s: Octets)
    requires Receive(sig, s).Got?
    ensures |s| >= HEADER_SIZE + |Receive(sig, s).rest|
    ensures s == s[..|s| - |Receive(sig, s).rest|] + Receive(sig, s).rest
    ensures IsFrame(sig, s[..|s| - |Receive(sig, s).rest|], Receive(sig, s).packet)
  {
    var h := ParseHeader(s[..HEADER_SIZE]);
    var end := HEADER_SIZE + h.payloadSize;
    var frame := s[..end];
    assert frame[..HEADER_SIZE] == s[..HEADER_SIZE];
    assert frame[HEADER_SIZE..end] == s[HEADER_SIZE..end];
    assert frame[end..] == [];
  }

  // ---- Streams of frames ------------------------------------------------------------------

  /** Every packet that repeated receives get out of `s`, and the bytes no receive has used up. */
  function ReceiveAll(sig: Ty, s: Octets): (r: (seq<Packet>, Octets))
    decreases |s|
  {
    match Receive(sig, s)
    case Incomplete => ([], s)
    case Bad => ([], s)
    case Got(p, rest) =>
      FrameLength(sig, s);
      var (ps, unread) := ReceiveAll(sig, rest);
      ([p] + ps, unread)
  }

  function Concat(frames: seq<Octets>): Octets {
    if frames == [] then [] else frames[0] + Concat(frames[1..])
  }

  ghost predicate AreFrames(sig: Ty, frames: seq<Octets>, ps: seq<Packet>) {
    |frames| == |ps| && forall i | 0 <= i < |ps| :: IsFrame(sig, frames[i], ps[i])
  }

  /** `got` are the packets of the frames that stand whole in `s`, `unread` the beginning of the next one. */
  ghost predicate Arrived(frames: seq<Octets>, ps: seq<Packet>, s: Octets, got: seq<Packet>, unread: Octets) {
    && |frames| == |ps| && got <= ps && s == Concat(frames[..|got|]) + unread
    && (|got| < |ps| ==> |unread| < |frames[|got|]| && unread <= frames[|got|])
    && (|got| == |ps| ==> unread == [])
  }

  /** However much of a stream of frames has arrived, the packets received are exactly those of the
      frames that have arrived whole. */
  lemma {:induction false} StreamPrefix(sig: Ty, frames: seq<Octets>, ps: seq<Packet>, arrived: nat)
    requires AreFrames(sig, frames, ps) && arrived <= |Concat(frames)|
    ensures var s := Concat(frames)[..arrived]; Arrived(frames, ps, s, ReceiveAll(sig, s).0, ReceiveAll(sig, s).1)
    decreases |frames|
  {
    hide Receive, IsFrame, Arrived, ReceiveAll;
    var s := Concat(frames)[..arrived];
    if frames == [] {
      assert s == [];
      NothingReceived(sig);
      NoneArrived(sig, frames, ps, s);
    } else if arrived < |frames[0]| {
      assert s == frames[0][..arrived];
      PrefixWaits(sig, frames[0], ps[0], arrived);
      NoneArrived(sig, frames, ps, s);
    } else {
      var later := Concat(frames[1..])[..arrived - |frames[0]|];
      assert s == frames[0] + later;
      StreamPrefix(sig, frames[1..], ps[1..], arrived - |frames[0]|);
      ReceiveFirst(sig, frames[0], ps[0], later);
      ArrivedFirst(frames, ps, later, ReceiveAll(sig, later).0, ReceiveAll(sig, later).1);
    }
  }

  lemma NothingReceived(sig: Ty)
    ensures Receive(sig, []) == Incomplete
  {}

  lemma NoneArrived(sig: Ty, frames: seq<Octets>, ps: seq<Packet>, s: Octets)
    requires |frames| == |ps| && Receive(sig, s) == Incomplete
    requires if frames == [] then s == [] else |s| < |frames[0]| && s <= frames[0]
    ensures Arrived(frames, ps, s, ReceiveAll(sig, s).0, ReceiveAll(sig, s).1)
  {
    assert Concat(frames[..0]) + s == s;
  }

  lemma ReceiveFirst(sig: Ty, frame: Octets, p: Packet, later: Octets)
    requires IsFrame(sig, frame, p)
    ensures ReceiveAll(sig, frame + later) == ([p] + ReceiveAll(sig, later).0, ReceiveAll(sig, later).1)
  {
    ReceiveExtends(sig, frame, later);
    assert [] + later == later;
  }

  lemma ArrivedFirst(frames: seq<Octets>, ps: seq<Packet>, later: Octets, got: seq<Packet>, unread: Octets)
    requires |frames| == |ps| > 0 && Arrived(frames[1..], ps[1..], later, got, unread)
    ensures Arrived(frames, ps, frames[0] + later, [ps[0]] + got, unread)
  {
    var n := |got|;
    assert [ps[0]] + ps[1..] == ps;
    assert frames[..n + 1] == [frames[0]] + frames[1..][..n];
    assert Concat(frames[..n + 1]) == frames[0] + Concat(frames[1..][..n]);
    assert n < |ps[1..]| ==> frames[1..][n] == frames[n + 1];
    assert frames[0] + (Concat(frames[1..][..n]) + unread) == frames[0] + Concat(frames[1..][..n]) + unread;
  }

  /** Sending a list of packets and receiving until nothing is left gives back exactly that list. */
  lemma StreamRoundTrip(sig: Ty, frames: seq<Octets>, ps: seq<Packet>)
    requires AreFrames(sig, frames, ps)
    ensures ReceiveAll(sig, Concat(frames)) == (ps, [])
  {
    StreamPrefix(sig, frames, ps, |Concat(frames)|);
    var s := Concat(frames);
    assert s[..|s|] == s;
    var (got, unread) := ReceiveAll(sig, s);
    if |got| < |ps| {
      ConcatSplit(frames, |got|);
    } else {
      assert got == ps;
    }
  }

  lemma {:induction false} ConcatSplit(frames: seq<Octets>, k: nat)
    requires k < |frames|
    ensures |Concat(frames)| >= |Concat(frames[..k])| + |frames[k]|
  {
    if k == 0 {
    } else {
      ConcatSplit(frames[1..], k - 1);
      assert frames[..k][0] == frames[0] && frames[..k][1..] == frames[1..][..k - 1];
    }
  }
}
