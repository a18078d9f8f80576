/** Two engines of EngineSpec joined octet by octet: each poll puts octets on the line and reads what has arrived, in
    any number of pieces. Complete frames on the line may be lost, or damaged beyond what a receiver accepts, and
    fragments may turn up between them. Every run of this system is a run of TwoEngines, so what is proved there holds
    of what the hosts are given. */
module OctetSystem {
  import opened Crc
  import opened Framing
  import opened FrameLevel
  import opened FrameLevelRuns
  import opened EngineSpec
  import opened TwoEngines
  import Slip
  import Transmission
  import FrameReception
  import Progress

  // ---------- the line ----------

  /** The octets of a frame on the line; what they came from is recorded for the proof only. A spoiled frame was started
      with this escape code left over; a garbled one has other octets between its FRAME octets. */
  datatype Block =
    | Whole(octets: seq<Octet>, sent: Sent)
    | Spoiled(octets: seq<Octet>, code: Octet, frame: Frame)
    | Garbled(body: seq<Octet>)

  function Framed(body: seq<Octet>): seq<Octet> {
    [Slip.FRAME] + Slip.Encode(body) + [Slip.FRAME]
  }

  function OctetsOf(b: Block): seq<Octet> {
    match b
    case Whole(octets, _) => octets
    case Spoiled(octets, _, _) => octets
    case Garbled(body) => Framed(body)
  }

  /** Whatever room a receiver has, it refuses these octets. */
  ghost predicate Refused(body: seq<Octet>) {
    4 <= |body| ==> forall stored :: stored <= body[4..] ==> !Intact(body[..4], stored)
  }

  /** Such is a frame whose payload was hit by a burst of at most sixteen bits, or in an odd number of bits. */
  lemma DamagedPayloadIsRefused(f: Frame, payload: seq<Octet>)
    requires |f.payload| <= 4095 && |payload| == |f.payload|
    requires Framing.Damaged(Message(f), EncodeHeader(HeaderOf(f)) + payload)
    ensures Refused(EncodeHeader(HeaderOf(f)) + payload + CrcOctets(Message(f)))
  {
    hide EncodeHeader, DecodeHeader, CrcOctets, Framing.Damaged, ChecksumHolds;
    var header := EncodeHeader(HeaderOf(f));
    var body := header + payload + CrcOctets(Message(f));
    HeaderRoundTrip(HeaderOf(f));
    assert body[..4] == header && body[4..] == payload + CrcOctets(Message(f));
    DamageIsDetected(header, f.payload, header, payload);
    forall stored | stored <= body[4..] ensures !Intact(body[..4], stored) {
      if |stored| == |body[4..]| {
        assert stored == body[4..];
      }
    }
  }

  /** And such is every frame that was cut short, wherever. */
  lemma FragmentIsRefused(f: Frame, n: nat)
    requires |f.payload| <= 4095 && n < |Body(f)|
    ensures Refused(Body(f)[..n])
  {
    hide EncodeHeader, DecodeHeader, CrcOctets, ChecksumHolds;
    if n >= 4 {
      BodyIsIntact(f);
      FrameReception.BodyLength(f);
      assert Body(f)[..n][..4] == Body(f)[..4];
      assert |Body(f)[..n][4..]| < |f.payload| + 2;
    }
  }

  /** One engine and its host, and what it has put on the line.
      sending: the frame being sent; emitted: its octets so far; leftover: the escape code that was left over when it
      was started, 0 if none.
      line: complete frames that the peer has not begun to read. partly: the frame that the peer is reading, of which
      it has not read unread. */
  datatype End = End(state: State, submitted: seq<seq<Packet>>, retired: nat, delivered: seq<Packet>,
                     sending: Option<Sent>, emitted: seq<Octet>, leftover: Octet,
                     line: seq<Block>, partly: Option<Block>, unread: seq<Octet>)

  predicate HasNext(y: End) {
    y.unread != [] || (y.line != [] && OctetsOf(y.line[0]) != [])
  }

  /** The next octet that arrives from y, and y without it. */
  function NextOctet(y: End): Octet
    requires HasNext(y)
  {
    if y.unread != [] then y.unread[0] else OctetsOf(y.line[0])[0]
  }

  function Took(y: End): End
    requires HasNext(y)
  {
    if y.unread != [] then
      y.(unread := y.unread[1..], partly := if |y.unread| == 1 then None else y.partly)
    else
      y.(unread := OctetsOf(y.line[0])[1..], partly := Some(y.line[0]), line := y.line[1..])
  }

  /** These readings are the next octets from y. */
  ghost predicate Follows(y: End, input: seq<Slip.Reading>)
    decreases input
  {
    input != [] ==> HasNext(y) && input[0].value == NextOctet(y) && Follows(Took(y), input[1..])
  }

  // ---------- a poll ----------

  /** The transmitting half. A frame is on the line when it is complete. */
  function AfterTransmit(x: End): End
    requires ValidState(x.state)
  {
    var t := TransmitIfDue(x.state);
    if t.actions == [Start] && NextFrame(x.state.link).frame.Some? then
      var f := NextFrame(x.state.link).frame.value;
      x.(state := t.state, sending := Some(Sent(f, x.retired, if f.channel == LE_CHANNEL then 0 else |x.delivered|)),
         emitted := t.output, leftover := x.state.tx.escape)
    else if t.actions == [Finish] then
      x.(state := t.state, sending := None, emitted := [],
         line := x.line + (if x.sending.None? then [] else [Completed(x, x.emitted + t.output)]))
    else
      x.(state := t.state, emitted := x.emitted + t.output)
  }

  function Completed(x: End, octets: seq<Octet>): Block
    requires x.sending.Some?
  {
    if x.leftover == 0 then Whole(octets, x.sending.value) else Spoiled(octets, x.leftover, x.sending.value.frame)
  }

  /** One octet read. If it makes the engine abandon the frame it is sending, that frame does not arrive. */
  function AfterOctet(x: End, r: Slip.Reading): End
    requires ValidState(x.state) && x.state.rx.buffer.Some?
  {
    var p := ReceiveOctet(x.state, r);
    var cut := x.state.tx.size != 0 && p.state.tx.size == 0;
    x.(state := p.state,
       retired := if p.actions != [] && Retires(x.state.link, p.actions[0]) then x.retired + 1 else x.retired,
       delivered := if p.delivered.Some? then x.delivered + [p.delivered.value] else x.delivered,
       sending := if cut then None else x.sending, emitted := if cut then [] else x.emitted)
  }

  datatype Pair = Pair(x: End, y: End)

  /** x reads from y as far as it reads. */
  ghost function AfterReading(x: End, y: End, input: seq<Slip.Reading>): (p: Pair)
    requires ValidState(x.state) && Follows(y, input)
    ensures ValidState(p.x.state)
    decreases input
  {
    if x.state.rx.buffer.None? || input == [] then Pair(x, y)
    else
      ReceiveOctetIsValid(x.state, input[0]);
      AfterReading(AfterOctet(x, input[0]), Took(y), input[1..])
  }

  ghost function AfterPoll(x: End, y: End, input: seq<Slip.Reading>): Pair
    requires ValidState(x.state) && Follows(y, input)
  {
    TransmitIsValid(x.state);
    var t, x1 := TransmitIfDue(x.state), AfterTransmit(x);
    if t.early then Pair(x1, y)
    else
      var p := AfterReading(x1, y, input);
      Pair(p.x.(state := Countdown(p.x.state, t.delay)), p.y)
  }

  lemma {:induction false} ReadingIsReceive(x: End, y: End, input: seq<Slip.Reading>)
    requires ValidState(x.state) && Follows(y, input)
    ensures var p, r := AfterReading(x, y, input), Receive(x.state, input);
            && p.x.state == r.state
            && p.x.delivered == x.delivered + (if r.delivered.Some? then [r.delivered.value] else [])
    decreases input
  {
    hide ReceiveOctet, ValidState, Retires;
    if x.state.rx.buffer.Some? && input != [] {
      ReceiveOctetIsValid(x.state, input[0]);
      ReadingIsReceive(AfterOctet(x, input[0]), Took(y), input[1..]);
    }
  }

  /** The engine's state and what its host is given are those of Poll. */
  lemma PollIsPoll(x: End, y: End, input: seq<Slip.Reading>)
    requires ValidState(x.state) && Follows(y, input)
    ensures var p, q := AfterPoll(x, y, input), Poll(x.state, input);
            && p.x.state == q.state
            && p.x.delivered == x.delivered + (if q.delivered.Some? then [q.delivered.value] else [])
  {
    hide TransmitIfDue, AfterReading, Receive, ValidState, Follows;
    TransmitIsValid(x.state);
    if !TransmitIfDue(x.state).early {
      ReadingIsReceive(AfterTransmit(x), y, input);
    }
  }

  // ---------- runs ----------

  datatype LineEvent =
    | Turns(input: seq<Slip.Reading>)      // the host polls, and these octets have arrived
    | Hands(p: Packet)                     // the host hands over a packet
    | Arms(buffer: Buffer)                 // the host gives a buffer to receive into, when there is none
    | Drops(i: nat)                        // a complete frame is lost
    | Garbles(i: nat, body: seq<Octet>)    // or damaged
    | Litters(i: nat, body: seq<Octet>)    // something turns up between two frames, as an abandoned frame may leave it

  datatype Happening = Happening(byA: bool, event: LineEvent)

  datatype Joint = Joint(a: End, b: End)

  /** If a spoiled frame is on the way whose escape code happens to be the checksum that it displaced, the receiver has
      room for all of it. */
  predicate RoomFor(rx: Rx, b: Block) {
    b.Spoiled? && rx.buffer.Some? && b.code == EncodeHeader(HeaderOf(b.frame))[3] ==>
      |b.frame.payload| + 2 <= rx.buffer.value.capacity
  }

  ghost predicate HasRoom(x: End, y: End) {
    && (y.partly.Some? ==> RoomFor(x.state.rx, y.partly.value))
    && forall i :: 0 <= i < |y.line| ==> RoomFor(x.state.rx, y.line[i])
  }

  ghost predicate CanHappen(x: End, y: End, e: LineEvent) {
    && ValidState(x.state)
    && match e
       case Turns(input) => Follows(y, input) && HasRoom(x, y)
       case Hands(p) => MaySubmit(p)
       case Arms(buffer) => x.state.rx.buffer.None? && ValidBuffer(buffer)
       case Drops(i) => i < |x.line|
       case Garbles(i, body) => i < |x.line| && Refused(body)
       case Litters(i, body) => i <= |x.line| && Refused(body)
  }

  function AfterHanding(x: End, p: Packet): End {
    x.(state := SendPacket(x.state, p), submitted := Filed(x.submitted, x.state.link.out.Some?, OnLine(p)),
       sending := None, emitted := [])
  }

  ghost function Happened(x: End, y: End, e: LineEvent): Pair
    requires CanHappen(x, y, e)
  {
    match e
    case Turns(input) => AfterPoll(x, y, input)
    case Hands(p) => Pair(AfterHanding(x, p), y)
    case Arms(buffer) => Pair(x.(state := ReceivePacket(x.state, buffer)), y)
    case Drops(i) => Pair(x.(line := x.line[..i] + x.line[i + 1..]), y)
    case Garbles(i, body) => Pair(x.(line := x.line[i := Garbled(body)]), y)
    case Litters(i, body) => Pair(x.(line := x.line[..i] + [Garbled(body)] + x.line[i..]), y)
  }

  ghost predicate CanGo(j: Joint, h: Happening) {
    if h.byA then CanHappen(j.a, j.b, h.event) else CanHappen(j.b, j.a, h.event)
  }

  ghost function Go(j: Joint, h: Happening): Joint
    requires CanGo(j, h)
  {
    if h.byA then var p := Happened(j.a, j.b, h.event); Joint(p.x, p.y)
    else var p := Happened(j.b, j.a, h.event); Joint(p.y, p.x)
  }

  ghost predicate CanRun(j: Joint, hs: seq<Happening>)
    decreases hs
  {
    hs != [] ==> CanGo(j, hs[0]) && CanRun(Go(j, hs[0]), hs[1..])
  }

  ghost function RunJoint(j: Joint, hs: seq<Happening>): Joint
    requires CanRun(j, hs)
    decreases hs
  {
    if hs == [] then j else RunJoint(Go(j, hs[0]), hs[1..])
  }

  // ---------- what the line and the engines have to do with each other ----------

  /** The octets of a block make up a frame as the engine builds them, or one that is refused. */
  ghost predicate Sound(b: Block) {
    match b
    case Whole(octets, sent) => octets == Wire(sent.frame) && FrameReception.WellFormed(sent.frame)
    case Spoiled(octets, code, frame) =>
      && octets == Transmission.SpoiledWire(code, frame) && Transmission.EscapeCode(code)
      && FrameReception.WellFormed(frame)
    case Garbled(body) => Refused(body)
  }

  function BodyIn(b: Block): seq<Octet> {
    match b
    case Whole(_, sent) => Body(sent.frame)
    case Spoiled(_, code, frame) => Transmission.SpoiledBody(code, frame)
    case Garbled(body) => body
  }

  /** What has been emitted of the frame being sent and what is still to come make up that frame. */
  ghost predicate Emits(x: End) {
    && (x.sending.Some? <==> x.state.tx.size != 0)
    && (x.state.tx.size != 0 ==> Transmission.Sending(x.state.tx))
    && (x.sending.Some? ==> FrameReception.WellFormed(x.sending.value.frame))
    && (x.sending.Some? ==>
          x.emitted + Transmission.ToSend(x.state.tx) == Transmission.WireWith(x.leftover, x.sending.value.frame))
    && Transmission.NoneOrCode(x.leftover) && Transmission.NoneOrCode(x.state.tx.escape)
    && (x.state.link.out.Some? ==> MaySubmit(x.state.link.out.value))
  }

  /** The receiver has recovered the first n octets of body; the encoding of the others and a FRAME are to come. */
  predicate Partway(rx: Rx, unread: seq<Octet>, body: seq<Octet>, n: nat) {
    && n <= |body| && FrameReception.Collects(rx, Slip.Decoded(rx.escaped, body[..n]))
    && (if rx.escaped then
          n < |body| && |Slip.EncodeOctet(body[n])| == 2 &&
          unread == Slip.EncodeOctet(body[n])[1..] + Slip.Encode(body[n + 1..]) + [Slip.FRAME]
        else
          unread == Slip.Encode(body[n..]) + [Slip.FRAME])
  }

  /** x is at a frame boundary, or has read part of the frame that y says it has. */
  ghost predicate Listens(x: End, y: End) {
    match y.partly
    case None => y.unread == [] && x.state.rx.index == -4 && !x.state.rx.escaped
    case Some(b) =>
      Sound(b) && x.state.rx.buffer.Some? && exists n: nat :: Partway(x.state.rx, y.unread, BodyIn(b), n)
  }

  ghost predicate SoundLine(line: seq<Block>) {
    forall i :: 0 <= i < |line| ==> Sound(line[i])
  }

  ghost predicate Wired(x: End, y: End) {
    ValidState(x.state) && Emits(x) && Listens(x, y) && SoundLine(x.line)
  }

  ghost predicate Joined(x: End, y: End) {
    Wired(x, y) && Wired(y, x)
  }

  // ---------- seen from TwoEngines ----------

  function SentIn(b: Block): seq<Sent> {
    if b.Whole? then [b.sent] else []
  }

  function SentAll(line: seq<Block>): seq<Sent> {
    if line == [] then [] else SentIn(line[0]) + SentAll(line[1..])
  }

  /** The frames on their way, in order: the one being read, the complete ones, the one being sent. */
  function WireOf(x: End): seq<Sent> {
    (if x.partly.Some? then SentIn(x.partly.value) else []) + SentAll(x.line) +
    (if x.sending.Some? then [x.sending.value] else [])
  }

  function SideOf(x: End): Side {
    Side(x.state.link, x.submitted, x.retired, x.delivered, WireOf(x))
  }

  function Sys(x: Side, y: Side, isA: bool): System {
    if isA then System(x, y) else System(y, x)
  }

  /** Some moves of TwoEngines lead from one to the other. */
  ghost predicate Reaches(s: System, t: System) {
    exists moves :: Valid(moves, s) && Final(moves, s) == t
  }

  lemma ReachesItself(s: System)
    ensures Reaches(s, s)
  {
    assert Valid([], s) && Final([], s) == s;
  }

  lemma ReachesOn(s: System, t: System, u: System)
    requires Reaches(s, t) && Reaches(t, u)
    ensures Reaches(s, u)
  {
    hide Valid, Final;
    var a :| Valid(a, s) && Final(a, s) == t;
    var b :| Valid(b, t) && Final(b, t) == u;
    Progress.ValidConcat(s, a, b);
  }

  lemma MyMove(x: Side, y: Side, isA: bool, e: Event)
    requires Enabled(x, y, e)
    ensures Reaches(Sys(x, y, isA), Sys(Moved(x, y, e).0, Moved(x, y, e).1, isA))
  {
    hide Moved, Enabled;
    var s, m := Sys(x, y, isA), Move(isA, e);
    assert [m][1..] == [];
    assert Valid([], TwoEngines.Step(s, m));
    assert Valid([m], s) && Final([m], s) == TwoEngines.Step(s, m);
  }

  lemma PeersMove(x: Side, y: Side, isA: bool, e: Event)
    requires Enabled(y, x, e)
    ensures Reaches(Sys(x, y, isA), Sys(Moved(y, x, e).1, Moved(y, x, e).0, isA))
  {
    hide Moved, Enabled;
    MyMove(y, x, !isA, e);
  }

  lemma {:induction false} SentAllConcat(a: seq<Block>, b: seq<Block>)
    ensures SentAll(a + b) == SentAll(a) + SentAll(b)
    decreases a
  {
    if a == [] {
      assert a + b == b;
    } else {
      assert (a + b)[0] == a[0] && (a + b)[1..] == a[1..] + b;
      SentAllConcat(a[1..], b);
    }
  }

  lemma SentAllOne(b: Block)
    ensures SentAll([b]) == SentIn(b)
  {
    assert [b][1..] == [];
    assert SentIn(b) + [] == SentIn(b);
  }

  // ---------- the transmitting half ----------

  /** What a started frame is, when only proper packets are pending. */
  lemma StartedIsWellFormed(l: Link)
    requires NextFrame(l).frame.Some? && (l.out.Some? ==> MaySubmit(l.out.value))
    ensures FrameReception.WellFormed(NextFrame(l).frame.value) && Transmission.PayloadIfData(l)
    ensures NextFrame(l).link.out == l.out
  {
    hide LeFrame, NextLePacket;
    if l.pkt != NONE {
      LeFrameIsWellFormed(l.pkt);
    } else if l.resp == RESPOND_CONF {
      LeFrameIsWellFormed(CONF_RESP);
    } else if l.out.Some? {
      MaskedOnce(l.out.value.channel);
    } else {
      MaskedOnce(0);
    }
  }

  lemma LeFrameIsWellFormed(k: LePacket)
    requires k < NONE
    ensures FrameReception.WellFormed(LeFrame(k))
  {
    WhichLeOctets(k);
  }

  lemma MaskedOnce(c: Octet)
    ensures ChannelField(ChannelField(c)) == ChannelField(c)
    ensures ChannelField(0) == 0
  {
  }

  lemma SetupIsSending(tx: Tx, f: Frame)
    ensures var tx' := Setup(tx, EncodeHeader(HeaderOf(f)), Transmission.BlockOf(f));
            && Transmission.Sending(tx') && tx'.escape == tx.escape
            && [Slip.FRAME] + Transmission.ToSend(tx') == Transmission.WireWith(tx.escape, f)
  {
    hide EncodeHeader, HeaderOf, Wire, Transmission.SpoiledWire, Transmission.ToSend;
    if tx.escape == 0 {
      Transmission.SetupSends(tx, f, Transmission.BlockOf(f));
    } else {
      Transmission.SetupSpoils(tx, f);
    }
  }

  lemma StartMoves(x: End, y: Side, isA: bool)
    requires ValidState(x.state) && Emits(x) && x.state.delay == 0 && x.state.tx.size == 0
    requires NextFrame(x.state.link).frame.Some?
    ensures Emits(AfterTransmit(x))
    ensures Reaches(Sys(SideOf(x), y, isA), Sys(SideOf(AfterTransmit(x)), y, isA))
  {
    hide Setup, EncodeHeader, HeaderOf, Wire, Transmission.ToSend, Transmission.Sending, NextFrame, Reaches;
    hide FrameReception.WellFormed, Transmission.PayloadIfData, Transmission.BlockOf, SecondBlock, SentAll;
    var f := NextFrame(x.state.link).frame.value;
    StartedIsWellFormed(x.state.link);
    Transmission.SecondBlockIsPayload(x.state.link, f);
    SetupIsSending(x.state.tx, f);
    SetupSize(x.state.tx, EncodeHeader(HeaderOf(f)), Transmission.BlockOf(f));
    MyMove(SideOf(x), y, isA, Starts);
    var w := WireOf(x);
    assert w + [] == w;
    var s := AfterTransmit(x).sending.value;
    assert WireOf(AfterTransmit(x)) == w + [s];
  }

  lemma SetupSize(tx: Tx, header: seq<Octet>, block: Option<seq<Octet>>)
    requires |header| == 4
    ensures Setup(tx, header, block).size == 4
  {
  }

  /** The octets still to go out, after an octet in the middle of a frame or at its end. */
  lemma ContinueEmits(x: End)
    requires ValidState(x.state) && Emits(x) && x.state.delay == 0 && x.state.tx.size != 0
    ensures var t, x1 := TransmitIfDue(x.state), AfterTransmit(x);
            && t.actions == (if Advance(x.state.tx).2 then [Finish] else [])
            && (t.actions == [] ==> Emits(x1) && x1 == x.(state := t.state, emitted := x.emitted + t.output) &&
                                    t.state.link == x.state.link)
            && (t.actions == [Finish] ==>
                  && t.state.tx.size == 0 && t.state.link == FinishFrame(x.state.link)
                  && x.emitted + t.output == Transmission.WireWith(x.leftover, x.sending.value.frame)
                  && Transmission.NoneOrCode(t.state.tx.escape))
  {
    hide Advance, Wire, Transmission.ToSend, Transmission.Sending, FrameReception.WellFormed;
    hide ValidTx, ValidRx, FinishFrame;
    hide Transmission.EscapeCode, Transmission.SpoiledWire;
    var tx := x.state.tx;
    Transmission.AdvanceKeepsCode(tx);
    Transmission.AdvanceSends(tx);
    var (tx', out, ended) := Advance(tx);
    if ended {
      assert Transmission.ToSend(tx) == [out, Slip.FRAME];
    } else {
      Transmission.SendingIsValid(tx');
      assert x.emitted + ([out] + Transmission.ToSend(tx')) == x.emitted + [out] + Transmission.ToSend(tx');
    }
  }

  lemma FinishedOut(l: Link)
    ensures FinishFrame(l).out == l.out || FinishFrame(l).out.None?
  {
  }

  /** The last frame x has started is lost. */
  lemma LoseLast(x: Side, y: Side, isA: bool)
    requires x.wire != []
    ensures Reaches(Sys(x, y, isA), Sys(x.(wire := x.wire[..|x.wire| - 1]), y, isA))
  {
    hide Reaches;
    MyMove(x, y, isA, TwoEngines.Loses(|x.wire| - 1));
    assert x.wire[|x.wire| - 1 + 1..] == [];
    assert x.wire[..|x.wire| - 1] + [] == x.wire[..|x.wire| - 1];
  }

  /** A frame that is finished stays on the wire, unless an octet of it was spoiled. */
  lemma FinishWire(x: End)
    requires ValidState(x.state) && x.sending.Some? && TransmitIfDue(x.state).actions == [Finish]
    ensures var x1 := AfterTransmit(x);
            if x.leftover == 0 then WireOf(x1) == WireOf(x)
            else WireOf(x) != [] && WireOf(x1) == WireOf(x)[..|WireOf(x)| - 1]
  {
    hide TransmitIfDue, SentAll, ValidState;
    var x1 := AfterTransmit(x);
    var p := if x.partly.Some? then SentIn(x.partly.value) else [];
    assert WireOf(x) == (p + SentAll(x.line)) + [x.sending.value];
    var b := Completed(x, x.emitted + TransmitIfDue(x.state).output);
    SentAllConcat(x.line, [b]);
    SentAllOne(b);
    if x.leftover != 0 {
      assert p + (SentAll(x.line) + []) + [] == p + SentAll(x.line);
      assert WireOf(x1) == p + SentAll(x.line) == WireOf(x)[..|WireOf(x)| - 1];
    } else {
      assert WireOf(x1) == WireOf(x);
    }
  }

  lemma FinishMoves(x: End, y: Side, isA: bool)
    requires ValidState(x.state) && Emits(x) && x.state.delay == 0 && x.state.tx.size != 0
    requires TransmitIfDue(x.state).actions == [Finish] && SoundLine(x.line)
    ensures Emits(AfterTransmit(x)) && SoundLine(AfterTransmit(x).line)
    ensures Reaches(Sys(SideOf(x), y, isA), Sys(SideOf(AfterTransmit(x)), y, isA))
  {
    hide TransmitIfDue, Wire, Transmission.ToSend, Transmission.Sending, FrameReception.WellFormed;
    hide Reaches, FinishFrame, ValidState, WireOf;
    ContinueEmits(x);
    FinishedOut(x.state.link);
    FinishWire(x);
    var s, z := SideOf(x), SideOf(AfterTransmit(x));
    var s1 := s.(link := FinishFrame(s.link));
    MyMove(s, y, isA, Finishes);
    if x.leftover != 0 {
      assert z == s1.(wire := s1.wire[..|s1.wire| - 1]);
      LoseLast(s1, y, isA);
      ReachesOn(Sys(s, y, isA), Sys(s1, y, isA), Sys(z, y, isA));
    } else {
      assert z == s1;
    }
  }

  /** What TransmitMoves says: the half poll keeps the relation, and is some moves of TwoEngines. */
  ghost predicate Transmits(x: End, y: Side, isA: bool)
    requires ValidState(x.state)
  {
    && Emits(AfterTransmit(x)) && SoundLine(AfterTransmit(x).line)
    && Reaches(Sys(SideOf(x), y, isA), Sys(SideOf(AfterTransmit(x)), y, isA))
  }

  lemma WaitTransmits(x: End, y: Side, isA: bool)
    requires ValidState(x.state) && Emits(x) && SoundLine(x.line)
    requires x.state.delay != 0 || (x.state.tx.size == 0 && NextFrame(x.state.link).frame.None?)
    ensures Transmits(x, y, isA)
  {
    hide ValidState, Emits, SoundLine, Reaches, SideOf;
    assert x.emitted + [] == x.emitted;
    assert AfterTransmit(x) == x;
    ReachesItself(Sys(SideOf(x), y, isA));
  }

  lemma ContinueTransmits(x: End, y: Side, isA: bool)
    requires ValidState(x.state) && Emits(x) && SoundLine(x.line) && x.state.delay == 0 && x.state.tx.size != 0
    ensures Transmits(x, y, isA)
  {
    hide ValidState, Emits, Reaches, TransmitIfDue, AfterTransmit, SoundLine;
    ContinueEmits(x);
    if TransmitIfDue(x.state).actions == [Finish] {
      FinishMoves(x, y, isA);
    } else {
      SameSide(x, AfterTransmit(x));
      ReachesItself(Sys(SideOf(x), y, isA));
    }
  }

  lemma SameSide(x: End, z: End)
    requires z == x.(state := z.state, emitted := z.emitted) && z.state.link == x.state.link
    ensures SideOf(z) == SideOf(x)
  {
  }

  lemma StartTransmits(x: End, y: Side, isA: bool)
    requires ValidState(x.state) && Emits(x) && SoundLine(x.line) && x.state.delay == 0 && x.state.tx.size == 0
    requires NextFrame(x.state.link).frame.Some?
    ensures Transmits(x, y, isA)
  {
    hide ValidState, Emits, Reaches, Sound, SideOf, NextFrame, Setup, EncodeHeader, HeaderOf;
    StartMoves(x, y, isA);
    assert AfterTransmit(x).line == x.line;
  }

  lemma TransmitMoves(x: End, y: Side, isA: bool)
    requires ValidState(x.state) && Emits(x) && SoundLine(x.line)
    ensures Transmits(x, y, isA)
  {
    hide ValidState, Emits, Transmits, SoundLine, NextFrame;
    if x.state.delay != 0 {
      WaitTransmits(x, y, isA);
    } else if x.state.tx.size != 0 {
      ContinueTransmits(x, y, isA);
    } else if NextFrame(x.state.link).frame.Some? {
      StartTransmits(x, y, isA);
    } else {
      WaitTransmits(x, y, isA);
    }
  }

  // ---------- the receiving half ----------

  /** An octet inside a frame: the receiver goes on, and nothing else happens. */
  lemma InsideStep(s: State, r: Slip.Reading, unread: seq<Octet>, body: seq<Octet>, n: nat)
    requires ValidState(s) && s.rx.buffer.Some? && Partway(s.rx, unread, body, n)
    requires |unread| > 1 && r.value == unread[0]
    ensures var p := ReceiveOctet(s, r);
            && ValidState(p.state) && p == Reception(s.(rx := p.state.rx), QUIET, None, [])
            && p.state.rx.buffer.Some?
            && exists m: nat :: Partway(p.state.rx, unread[1..], body, m)
  {
    hide ValidState, FrameReception.Collects, ReceiveOctet, Slip.EncodeOctet;
    var p := ReceiveOctet(s, r);
    var c := Slip.Decoded(s.rx.escaped, body[..n]);
    FrameReception.ReceiveOctetCollects(s, r, c);
    if s.rx.escaped {
      EscapedOctet(unread, body, n);
      CodeOf(body[n], r);
      FrameReception.InsideOctet(s, r);
      FrameReception.CollectsEscape(p.state.rx, Slip.Decoded(false, body[..n] + [body[n]]));
      assert body[..n] + [body[n]] == body[..n + 1];
      assert Partway(p.state.rx, unread[1..], body, n + 1);
    } else {
      NothingEncoded(body, n);
      PlainOctet(unread, body, n);
      FirstOf(body[n], r);
      FrameReception.InsideOctet(s, r);
      if |Slip.EncodeOctet(body[n])| == 2 {
        FrameReception.CollectsEscape(p.state.rx, Slip.Decoded(true, body[..n]));
        assert Partway(p.state.rx, unread[1..], body, n);
      } else {
        FrameReception.CollectsEscape(p.state.rx, Slip.Decoded(false, body[..n] + [body[n]]));
        assert body[..n] + [body[n]] == body[..n + 1];
        assert Partway(p.state.rx, unread[1..], body, n + 1);
      }
    }
  }

  lemma EscapedOctet(unread: seq<Octet>, body: seq<Octet>, n: nat)
    requires n < |body| && |Slip.EncodeOctet(body[n])| == 2
    requires unread == Slip.EncodeOctet(body[n])[1..] + Slip.Encode(body[n + 1..]) + [Slip.FRAME]
    ensures unread[0] == Slip.EncodeOctet(body[n])[1]
    ensures unread[1..] == Slip.Encode(body[n + 1..]) + [Slip.FRAME]
  {
    hide Slip.EncodeOctet, Slip.Encode;
  }

  lemma PlainOctet(unread: seq<Octet>, body: seq<Octet>, n: nat)
    requires n < |body| && unread == Slip.Encode(body[n..]) + [Slip.FRAME]
    ensures var e := Slip.EncodeOctet(body[n]);
            unread[0] == e[0] && unread[1..] == e[1..] + Slip.Encode(body[n + 1..]) + [Slip.FRAME]
  {
    assert body[n..][0] == body[n] && body[n..][1..] == body[n + 1..];
    EncodeOctetLength(body[n]);
    hide Slip.EncodeOctet;
    assert Slip.Encode(body[n..]) == Slip.EncodeOctet(body[n]) + Slip.Encode(body[n + 1..]);
  }

  lemma NothingEncoded(body: seq<Octet>, n: nat)
    requires n <= |body|
    ensures n == |body| <==> Slip.Encode(body[n..]) == []
  {
    if n < |body| {
      EncodeOctetLength(body[n]);
      assert body[n..][0] == body[n];
    }
  }

  lemma EncodeOctetLength(ch: Octet)
    ensures 1 <= |Slip.EncodeOctet(ch)| <= 2
  {
  }

  /** The second octet of an escape sequence gives the octet back. */
  lemma CodeOf(ch: Octet, r: Slip.Reading)
    requires |Slip.EncodeOctet(ch)| == 2 && r.value == Slip.EncodeOctet(ch)[1]
    ensures Slip.Decode(true, r) == Slip.Plain(ch) && r.value != Slip.FRAME
  {
  }

  /** The first octet of an encoding is the octet itself or begins an escape sequence. */
  lemma FirstOf(ch: Octet, r: Slip.Reading)
    requires |Slip.EncodeOctet(ch)| >= 1 && r.value == Slip.EncodeOctet(ch)[0]
    ensures Slip.Decode(false, r) == (if |Slip.EncodeOctet(ch)| == 2 then Slip.Escaping else Slip.Plain(ch))
    ensures r.value != Slip.FRAME && 1 <= |Slip.EncodeOctet(ch)| <= 2
    ensures |Slip.EncodeOctet(ch)| == 1 ==> Slip.EncodeOctet(ch)[1..] == []
  {
  }

  /** At the closing FRAME octet the whole body has been recovered. */
  lemma ClosingCollects(rx: Rx, unread: seq<Octet>, body: seq<Octet>, n: nat)
    requires Partway(rx, unread, body, n) && |unread| == 1
    ensures unread == [Slip.FRAME] && !rx.escaped && FrameReception.Collects(rx, Slip.Decoded(false, body))
  {
    hide FrameReception.Collects, Slip.EncodeOctet;
    if n < |body| {
      assert body[n..][0] == body[n];
      EncodeOctetLength(body[n]);
    }
    assert n == |body| ==> body[..n] == body;
  }

  lemma AcceptKeepsOut(l: Link, s: Seen)
    ensures var e := Accept(l, s); e.link.out == l.out || e.link.out.None?
  {
    hide Increment;
  }

  /** The frame that x is sending, if it has been abandoned by what x has received, is lost. */
  lemma CutMoves(x: End, y: Side, isA: bool, cut: bool)
    ensures var x1 := if cut then x.(sending := None) else x;
            Reaches(Sys(SideOf(x), y, isA), Sys(SideOf(x1), y, isA))
  {
    hide Reaches, SentAll;
    ReachesItself(Sys(SideOf(x), y, isA));
    if cut && x.sending.Some? {
      LoseLast(SideOf(x), y, isA);
      assert WireOf(x.(sending := None)) == WireOf(x)[..|WireOf(x)| - 1];
    } else if cut {
      assert x.(sending := None) == x;
    }
  }

  /** Reading this octet makes x's link accept the frame. */
  ghost predicate Accepts(x: End, r: Slip.Reading, f: Frame)
    requires ValidState(x.state) && x.state.rx.buffer.Some?
  {
    var p, e := ReceiveOctet(x.state, r), Accept(x.state.link, See(f));
    && p.state.link == e.link && p.state.tx == (if e.cut then Idle(x.state.tx) else x.state.tx)
    && p.delivered == (if e.delivered then Some(Packet(f.channel, f.reliable, f.payload)) else None)
    && |p.actions| == 1 && p.actions[0].Accepted? && Accept(x.state.link, p.actions[0].seen) == e
  }

  lemma AcceptEmits(x: End, r: Slip.Reading, f: Frame)
    requires ValidState(x.state) && Emits(x) && x.state.rx.buffer.Some? && Accepts(x, r, f)
    ensures Emits(AfterOctet(x, r))
  {
    hide ReceiveOctet, Accept, See, Wire, Transmission.ToSend, Transmission.Sending, ValidState;
    AcceptKeepsOut(x.state.link, See(f));
  }

  /** x accepts the frame that it has read: it receives it in TwoEngines. */
  lemma AcceptMoves(x: End, y: End, r: Slip.Reading, isA: bool, f: Frame)
    requires ValidState(x.state) && Emits(x) && x.state.rx.buffer.Some? && Accepts(x, r, f)
    requires y.partly.Some? && y.partly.value.Whole? && y.partly.value.sent.frame == f && |y.unread| == 1
    ensures Emits(AfterOctet(x, r))
    ensures Reaches(Sys(SideOf(x), SideOf(y), isA), Sys(SideOf(AfterOctet(x, r)), SideOf(Took(y)), isA))
  {
    hide ReceiveOctet, Reaches, SideOf, AfterOctet, Took, ValidState, Emits, Accepts;
    AcceptEmits(x, r, f);
    var x1, y1 := AfterOctet(x, r), Took(y);
    var mid := x1.(sending := x.sending);
    AcceptedSide(x, r, f);
    TookSide(y);
    FirstOfWire(y);
    MyMove(SideOf(x), SideOf(y), isA, TwoEngines.Receives);
    CutMoves(mid, SideOf(y1), isA, x1.sending.None?);
    assert x1.sending.None? ==> mid.(sending := None) == x1;
    assert x1.sending.Some? ==> mid == x1 by { SendingStays(x, r); }
    ReachesOn(Sys(SideOf(x), SideOf(y), isA), Sys(SideOf(mid), SideOf(y1), isA), Sys(SideOf(x1), SideOf(y1), isA));
  }

  lemma SendingStays(x: End, r: Slip.Reading)
    requires ValidState(x.state) && x.state.rx.buffer.Some?
    ensures AfterOctet(x, r).sending.Some? ==> AfterOctet(x, r).sending == x.sending
  {
    hide ReceiveOctet, Retires;
  }

  lemma AcceptedSide(x: End, r: Slip.Reading, f: Frame)
    requires ValidState(x.state) && x.state.rx.buffer.Some? && Accepts(x, r, f)
    ensures SideOf(AfterOctet(x, r).(sending := x.sending)) == Receiving(SideOf(x), f)
  {
    hide ReceiveOctet, Accept, See, SentAll, ValidState;
    var mid := AfterOctet(x, r).(sending := x.sending);
    assert WireOf(mid) == WireOf(x);
  }

  lemma TookSide(y: End)
    requires y.partly.Some? && y.partly.value.Whole? && |y.unread| == 1
    ensures SideOf(y).wire == [y.partly.value.sent] + SideOf(Took(y)).wire
    ensures SideOf(Took(y)) == SideOf(y).(wire := SideOf(y).wire[1..])
  {
    hide SentAll;
    assert WireOf(y) == [y.partly.value.sent] + WireOf(Took(y));
  }

  lemma FirstOfWire(y: End)
    requires y.partly.Some? && y.partly.value.Whole?
    ensures SideOf(y).wire != [] && SideOf(y).wire[0] == y.partly.value.sent
  {
    hide SentAll;
  }

  /** x refuses the octets that it has read, a frame that does not fit or a damaged one. */
  lemma RejectMoves(x: End, y: End, r: Slip.Reading, isA: bool)
    requires ValidState(x.state) && Emits(x)
    requires x.state.rx.buffer.Some? && y.partly.Some? && |y.unread| == 1
    requires var p := ReceiveOctet(x.state, r);
             && p.state.tx == x.state.tx && p.delivered.None?
             && ((p.actions == [Rejected] && p.state.link == Reject(x.state.link)) ||
                 (p.actions == [] && p.state.link == x.state.link && !y.partly.value.Whole?))
    ensures Emits(AfterOctet(x, r))
    ensures Reaches(Sys(SideOf(x), SideOf(y), isA), Sys(SideOf(AfterOctet(x, r)), SideOf(Took(y)), isA))
  {
    hide ReceiveOctet, Reaches, SentAll, Wire, Transmission.ToSend, Transmission.Sending, ValidState;
    var x1, y1 := AfterOctet(x, r), Took(y);
    var sx, sy, sy1 := SideOf(x), SideOf(y), SideOf(y1);
    ReachesItself(Sys(sx, sy, isA));
    if y.partly.value.Whole? {
      PeersMove(sx, sy, isA, TwoEngines.Loses(0));
      assert WireOf(y) == [y.partly.value.sent] + WireOf(y1);
      assert sy.wire[..0] + sy.wire[1..] == sy1.wire;
    } else {
      assert [] + SentAll(y.line) == SentAll(y.line);
      assert sy1 == sy;
    }
    if ReceiveOctet(x.state, r).actions == [Rejected] {
      MyMove(sx, sy1, isA, Noise);
      assert SideOf(x1) == sx.(link := Reject(sx.link));
      ReachesOn(Sys(sx, sy, isA), Sys(sx, sy1, isA), Sys(SideOf(x1), sy1, isA));
    } else {
      assert SideOf(x1) == sx;
    }
  }

  /** The closing FRAME octet. */
  lemma ClosingMoves(x: End, y: End, r: Slip.Reading, isA: bool)
    requires Wired(x, y) && x.state.rx.buffer.Some? && y.partly.Some? && |y.unread| == 1
    requires r.value == NextOctet(y) && RoomFor(x.state.rx, y.partly.value)
    ensures Wired(AfterOctet(x, r), Took(y))
    ensures Reaches(Sys(SideOf(x), SideOf(y), isA), Sys(SideOf(AfterOctet(x, r)), SideOf(Took(y)), isA))
  {
    hide ValidState, Partway, Emits, SoundLine, SideOf, Reaches, BoundaryReception, Retires, Accept, See;
    hide FrameReception.Collects, FrameReception.WellFormed, Refused, Wire;
    var b := y.partly.value;
    var n: nat :| Partway(x.state.rx, y.unread, BodyIn(b), n);
    ClosingCollects(x.state.rx, y.unread, BodyIn(b), n);
    ReceiveOctetIsValid(x.state, r);
    BoundaryIsValid(x.state);
    match b {
      case Whole(_, sent) =>
        FrameReception.ArrivedFrame(x.state, sent.frame);
        if |sent.frame.payload| + 2 <= x.state.rx.buffer.value.capacity {
          AcceptMoves(x, y, r, isA, sent.frame);
        } else {
          RejectMoves(x, y, r, isA);
        }
      case Spoiled(_, code, frame) =>
        SpoiledVerdict(x.state, code, frame);
        RejectMoves(x, y, r, isA);
      case Garbled(body) =>
        DamagedVerdict(x.state, body);
        RejectMoves(x, y, r, isA);
    }
  }

  lemma SpoiledVerdict(s: State, code: Octet, f: Frame)
    requires ValidState(s) && s.rx.buffer.Some? && Transmission.EscapeCode(code)
    requires FrameReception.Collects(s.rx, Slip.Decoded(false, Transmission.SpoiledBody(code, f)))
    requires code == EncodeHeader(HeaderOf(f))[3] ==> |f.payload| + 2 <= s.rx.buffer.value.capacity
    ensures var p := BoundaryReception(s);
            p.state.tx == s.tx && p.delivered.None? && p.actions == [Rejected] && p.state.link == Reject(s.link)
  {
    hide ValidState, BoundaryReception, Accept, FrameReception.Collects, Intact, EncodeHeader, HeaderOf, ChecksumHolds;
    hide CrcOctets, Transmission.SpoiledBody;
    var body := Transmission.SpoiledBody(code, f);
    var capacity := s.rx.buffer.value.capacity;
    FrameReception.Verdict(s, Slip.Decoded(false, body));
    Transmission.SpoiledIsEncoded(code, f);
    if code == EncodeHeader(HeaderOf(f))[3] {
      Transmission.SpoiledIsRefused(code, f);
      assert FrameReception.Kept(body, capacity) == body[4..];
    } else {
      Transmission.SpoiledHeader(code, f);
      ChecksumFails(body[..4], FrameReception.Kept(body, capacity));
    }
  }

  lemma ChecksumFails(header: seq<Octet>, stored: seq<Octet>)
    requires |header| == 4 && !ChecksumHolds(header)
    ensures !Intact(header, stored)
  {
  }

  lemma DamagedVerdict(s: State, body: seq<Octet>)
    requires ValidState(s) && s.rx.buffer.Some? && FrameReception.Collects(s.rx, Slip.Decoded(false, body))
    requires Refused(body)
    ensures var p := BoundaryReception(s);
            && p.state.tx == s.tx && p.delivered.None?
            && ((p.actions == [Rejected] && p.state.link == Reject(s.link)) ||
                (p.actions == [] && p.state.link == s.link))
  {
    hide ValidState, BoundaryReception, Accept, FrameReception.Collects, Intact;
    FrameReception.Verdict(s, Slip.Decoded(false, body));
    if 4 <= |body| {
      var stored := FrameReception.Kept(body, s.rx.buffer.value.capacity);
      assert stored <= body[4..];
    }
  }

  /** The opening FRAME octet of the next frame on the line. */
  lemma OpeningMoves(x: End, y: End, r: Slip.Reading)
    requires Wired(x, y) && SoundLine(y.line) && x.state.rx.buffer.Some? && y.partly.None? && HasNext(y)
    requires r.value == NextOctet(y)
    ensures Wired(AfterOctet(x, r), Took(y)) && SideOf(AfterOctet(x, r)) == SideOf(x) && SideOf(Took(y)) == SideOf(y)
  {
    hide ValidState, Emits, Retires, Slip.Encode, FrameReception.Collects, FrameReception.WellFormed, Refused;
    var b := y.line[0];
    assert Sound(b);
    FramedOctets(b);
    FrameReception.FirstFrameOctet(x.state, r);
    assert ReceiveOctet(x.state, r).state == x.state;
    assert AfterOctet(x, r) == x;
    assert BodyIn(b)[..0] == [] && BodyIn(b)[0..] == BodyIn(b);
    assert Partway(x.state.rx, Took(y).unread, BodyIn(b), 0);
    assert [] + (SentIn(b) + SentAll(y.line[1..])) == SentIn(b) + SentAll(y.line[1..]);
    assert WireOf(Took(y)) == WireOf(y);
  }

  lemma FramedOctets(b: Block)
    requires Sound(b)
    ensures OctetsOf(b) == Framed(BodyIn(b))
    ensures OctetsOf(b)[0] == Slip.FRAME && OctetsOf(b)[1..] == Slip.Encode(BodyIn(b)) + [Slip.FRAME]
  {
    hide Slip.Encode, FrameReception.WellFormed, Body, Refused, Transmission.SpoiledBody, Transmission.SpoiledWire;
    hide Transmission.EscapeCode;
    if b.Spoiled? {
      Transmission.SpoiledIsEncoded(b.code, b.frame);
    }
    var e := Slip.Encode(BodyIn(b));
    assert [Slip.FRAME] + e + [Slip.FRAME] == [Slip.FRAME] + (e + [Slip.FRAME]);
  }

  /** An octet in the middle of a frame. */
  lemma InsideMoves(x: End, y: End, r: Slip.Reading)
    requires Wired(x, y) && x.state.rx.buffer.Some? && y.partly.Some? && |y.unread| > 1
    requires r.value == NextOctet(y)
    ensures Wired(AfterOctet(x, r), Took(y)) && SideOf(AfterOctet(x, r)) == SideOf(x) && SideOf(Took(y)) == SideOf(y)
  {
    hide ValidState, Partway, ReceiveOctet, Retires, Sound, Wire, Transmission.Sending, Transmission.ToSend;
    var b := y.partly.value;
    var n: nat :| Partway(x.state.rx, y.unread, BodyIn(b), n);
    InsideStep(x.state, r, y.unread, BodyIn(b), n);
    assert AfterOctet(x, r) == x.(state := ReceiveOctet(x.state, r).state);
  }

  lemma UnreadIsPartly(x: End, y: End)
    requires Listens(x, y)
    ensures y.partly.Some? <==> y.unread != []
  {
    hide Slip.Encode, Slip.EncodeOctet, FrameReception.Collects;
  }

  /** What y itself hears does not depend on what it has put on the line. */
  lemma PeerStaysWired(y: End, x: End, y1: End, x1: End)
    requires Wired(y, x) && SoundLine(y1.line)
    requires y1 == y.(line := y1.line, partly := y1.partly, unread := y1.unread)
    requires x1.partly == x.partly && x1.unread == x.unread
    ensures Wired(y1, x1)
  {
    hide Sound, Partway, ValidState, Wire;
  }

  lemma TookLine(y: End)
    requires HasNext(y) && SoundLine(y.line)
    ensures SoundLine(Took(y).line)
  {
    hide Sound;
  }

  /** A poll neither gives room nor takes any, but for the buffer it hands over. */
  lemma OctetKeepsRoom(x: End, y: End, r: Slip.Reading)
    requires ValidState(x.state) && x.state.rx.buffer.Some? && HasNext(y) && HasRoom(x, y)
    ensures HasRoom(AfterOctet(x, r), Took(y))
  {
    hide EncodeHeader, HeaderOf, ReceiveOctet, Retires, ValidState;
    OctetKeepsCapacity(x.state, r);
  }

  lemma OctetKeepsCapacity(s: State, r: Slip.Reading)
    requires ValidState(s) && s.rx.buffer.Some?
    ensures var rx := ReceiveOctet(s, r).state.rx;
            rx.buffer.Some? ==> rx.buffer.value.capacity == s.rx.buffer.value.capacity
  {
    hide BoundaryReception, Slip.Deslip, ValidTx;
    BoundaryIsValid(s);
  }

  lemma TransmitKeepsRoom(x: End, y: End)
    requires ValidState(x.state) && HasRoom(x, y)
    ensures HasRoom(AfterTransmit(x), y)
  {
    hide TransmitIfDue, EncodeHeader, HeaderOf, ValidState;
    TransmitIsValid(x.state);
  }

  lemma OctetMoves(x: End, y: End, r: Slip.Reading, isA: bool)
    requires Joined(x, y) && x.state.rx.buffer.Some? && HasNext(y) && r.value == NextOctet(y) && HasRoom(x, y)
    ensures Joined(AfterOctet(x, r), Took(y)) && HasRoom(AfterOctet(x, r), Took(y))
    ensures Reaches(Sys(SideOf(x), SideOf(y), isA), Sys(SideOf(AfterOctet(x, r)), SideOf(Took(y)), isA))
  {
    OctetKeepsRoom(x, y, r);
    hide ValidState, Emits, SoundLine, SideOf, Reaches, Listens, ReceiveOctet, Retires, RoomFor;
    UnreadIsPartly(x, y);
    TookLine(y);
    ReachesItself(Sys(SideOf(x), SideOf(y), isA));
    if y.partly.None? {
      OpeningMoves(x, y, r);
    } else if |y.unread| == 1 {
      ClosingMoves(x, y, r, isA);
    } else {
      InsideMoves(x, y, r);
    }
    PeerStaysWired(y, x, Took(y), AfterOctet(x, r));
  }

  lemma {:induction false} ReadingMoves(x: End, y: End, input: seq<Slip.Reading>, isA: bool)
    requires Joined(x, y) && Follows(y, input) && HasRoom(x, y)
    ensures var p := AfterReading(x, y, input);
            && Joined(p.x, p.y)
            && Reaches(Sys(SideOf(x), SideOf(y), isA), Sys(SideOf(p.x), SideOf(p.y), isA))
    decreases input
  {
    hide ValidState, Emits, SoundLine, SideOf, Reaches, Listens, AfterOctet, Took, HasRoom;
    ReachesItself(Sys(SideOf(x), SideOf(y), isA));
    if x.state.rx.buffer.Some? && input != [] {
      ReceiveOctetIsValid(x.state, input[0]);
      OctetMoves(x, y, input[0], isA);
      var x1, y1 := AfterOctet(x, input[0]), Took(y);
      ReadingMoves(x1, y1, input[1..], isA);
      var p := AfterReading(x1, y1, input[1..]);
      ReachesOn(Sys(SideOf(x), SideOf(y), isA), Sys(SideOf(x1), SideOf(y1), isA), Sys(SideOf(p.x), SideOf(p.y), isA));
    }
  }

  // ---------- every event is some moves of TwoEngines ----------

  lemma TransmitJoined(x: End, y: End, isA: bool)
    requires Joined(x, y)
    ensures Joined(AfterTransmit(x), y)
    ensures Reaches(Sys(SideOf(x), SideOf(y), isA), Sys(SideOf(AfterTransmit(x)), SideOf(y), isA))
  {
    hide ValidState, Emits, SoundLine, SideOf, Reaches, TransmitIfDue, Sound, Partway;
    TransmitIsValid(x.state);
    TransmitMoves(x, SideOf(y), isA);
  }

  lemma DelayChanges(x: End, y: End, delay: nat)
    requires Joined(x, y) && delay <= POLL_DELAY
    ensures var x1 := x.(state := x.state.(delay := delay));
            Joined(x1, y) && SideOf(x1) == SideOf(x)
  {
    hide ValidTx, ValidRx, Sound, Partway, Wire, Transmission.Sending, Transmission.ToSend;
  }

  lemma PollMoves(x: End, y: End, input: seq<Slip.Reading>, isA: bool)
    requires Joined(x, y) && Follows(y, input) && HasRoom(x, y)
    ensures var p := AfterPoll(x, y, input);
            && Joined(p.x, p.y)
            && Reaches(Sys(SideOf(x), SideOf(y), isA), Sys(SideOf(p.x), SideOf(p.y), isA))
  {
    hide Emits, SoundLine, SideOf, Reaches, Listens, AfterReading, Follows, TransmitIfDue, ValidTx, ValidRx, HasRoom;
    TransmitIsValid(x.state);
    TransmitJoined(x, y, isA);
    TransmitKeepsRoom(x, y);
    var t, x1 := TransmitIfDue(x.state), AfterTransmit(x);
    if !t.early {
      ReadingMoves(x1, y, input, isA);
      var q := AfterReading(x1, y, input);
      ReachesOn(Sys(SideOf(x), SideOf(y), isA), Sys(SideOf(x1), SideOf(y), isA), Sys(SideOf(q.x), SideOf(q.y), isA));
      DelayChanges(q.x, q.y, Countdown(q.x.state, t.delay).delay);
    }
  }

  lemma HandingJoined(x: End, y: End, p: Packet)
    requires Joined(x, y) && MaySubmit(p)
    ensures Joined(AfterHanding(x, p), y)
  {
    hide Sound, SoundLine, Partway, Wire, Transmission.Sending, Transmission.ToSend, ValidRx, OnLine, Filed;
  }

  lemma HandedSide(x: End, p: Packet)
    ensures SideOf(AfterHanding(x, p)) == Submitting(SideOf(x.(sending := None)), p)
  {
    hide SentAll, OnLine, Filed;
    assert WireOf(AfterHanding(x, p)) == WireOf(x.(sending := None));
  }

  lemma HandingMoves(x: End, y: End, p: Packet, isA: bool)
    requires Joined(x, y) && MaySubmit(p)
    ensures Joined(AfterHanding(x, p), y)
    ensures Reaches(Sys(SideOf(x), SideOf(y), isA), Sys(SideOf(AfterHanding(x, p)), SideOf(y), isA))
  {
    hide Reaches, Joined, SideOf, AfterHanding, Submitting;
    var x1 := x.(sending := None);
    CutMoves(x, SideOf(y), isA, true);
    MyMove(SideOf(x1), SideOf(y), isA, Submits(p));
    HandingJoined(x, y, p);
    HandedSide(x, p);
    ReachesOn(Sys(SideOf(x), SideOf(y), isA), Sys(SideOf(x1), SideOf(y), isA),
              Sys(SideOf(AfterHanding(x, p)), SideOf(y), isA));
  }

  lemma ArmingMoves(x: End, y: End, buffer: Buffer)
    requires Joined(x, y) && x.state.rx.buffer.None? && ValidBuffer(buffer)
    ensures var x1 := x.(state := ReceivePacket(x.state, buffer));
            Joined(x1, y) && SideOf(x1) == SideOf(x)
  {
    hide ValidTx, Sound, Partway, Wire, Transmission.Sending, Transmission.ToSend;
  }

  lemma CutAt(line: seq<Block>, i: nat)
    requires i < |line|
    ensures line == line[..i] + ([line[i]] + line[i + 1..])
  {
  }

  lemma SentAllAround(line: seq<Block>, i: nat)
    requires i < |line|
    ensures SentAll(line) == SentAll(line[..i]) + (SentIn(line[i]) + SentAll(line[i + 1..]))
    ensures SentAll(line[..i] + line[i + 1..]) == SentAll(line[..i]) + SentAll(line[i + 1..])
  {
    hide SentAll, SentIn;
    CutAt(line, i);
    SentAllConcat(line[..i], [line[i]] + line[i + 1..]);
    SentAllConcat([line[i]], line[i + 1..]);
    SentAllOne(line[i]);
    SentAllConcat(line[..i], line[i + 1..]);
  }

  lemma Regrouped(h: seq<Sent>, a: seq<Sent>, s: seq<Sent>, b: seq<Sent>, l: seq<Sent>)
    ensures h + (a + (s + b)) + l == (h + a) + s + (b + l)
    ensures h + (a + b) + l == (h + a) + (b + l)
  {
  }

  /** A block among the complete ones, seen from TwoEngines. */
  lemma BlockInWire(x: End, i: nat)
    requires i < |x.line|
    ensures var p := (if x.partly.Some? then SentIn(x.partly.value) else []) + SentAll(x.line[..i]);
            var q := SentAll(x.line[i + 1..]) + (if x.sending.Some? then [x.sending.value] else []);
            && WireOf(x) == p + SentIn(x.line[i]) + q
            && WireOf(x.(line := x.line[..i] + x.line[i + 1..])) == p + q
  {
    hide SentAll, SentIn;
    SentAllAround(x.line, i);
    Regrouped(if x.partly.Some? then SentIn(x.partly.value) else [], SentAll(x.line[..i]), SentIn(x.line[i]),
              SentAll(x.line[i + 1..]), if x.sending.Some? then [x.sending.value] else []);
  }

  lemma DroppingMoves(x: End, y: Side, i: nat, isA: bool)
    requires i < |x.line|
    ensures var x1 := x.(line := x.line[..i] + x.line[i + 1..]);
            Reaches(Sys(SideOf(x), y, isA), Sys(SideOf(x1), y, isA))
  {
    hide Reaches, SentAll, WireOf;
    BlockInWire(x, i);
    ReachesItself(Sys(SideOf(x), y, isA));
    var k := |(if x.partly.Some? then SentIn(x.partly.value) else []) + SentAll(x.line[..i])|;
    if x.line[i].Whole? {
      MyMove(SideOf(x), y, isA, TwoEngines.Loses(k));
      var w := WireOf(x);
      assert w[..k] + w[k + 1..] == WireOf(x.(line := x.line[..i] + x.line[i + 1..]));
    } else {
      assert SideOf(x.(line := x.line[..i] + x.line[i + 1..])) == SideOf(x);
    }
  }

  lemma GarblingIsDropping(x: End, i: nat, body: seq<Octet>)
    requires i < |x.line|
    ensures SideOf(x.(line := x.line[i := Garbled(body)])) == SideOf(x.(line := x.line[..i] + x.line[i + 1..]))
  {
    hide SentAll, WireOf;
    var z := x.(line := x.line[i := Garbled(body)]);
    BlockInWire(z, i);
    BlockInWire(x, i);
    assert z.line[..i] == x.line[..i] && z.line[i + 1..] == x.line[i + 1..];
  }

  lemma LineStaysJoined(x: End, y: End, line: seq<Block>)
    requires Joined(x, y) && SoundLine(line)
    ensures Joined(x.(line := line), y)
  {
    hide Sound, Partway, ValidState, Wire, Transmission.Sending, Transmission.ToSend;
  }

  lemma SoundWithout(line: seq<Block>, i: nat)
    requires SoundLine(line) && i < |line|
    ensures SoundLine(line[..i] + line[i + 1..])
    ensures forall body :: Refused(body) ==> SoundLine(line[i := Garbled(body)])
  {
    hide Refused, Wire, FrameReception.WellFormed;
  }

  /** Every event of the octet system keeps the relation, and is some moves of TwoEngines. */
  lemma EventIsMoves(x: End, y: End, e: LineEvent, isA: bool)
    requires Joined(x, y) && CanHappen(x, y, e)
    ensures var p := Happened(x, y, e);
            && Joined(p.x, p.y)
            && Reaches(Sys(SideOf(x), SideOf(y), isA), Sys(SideOf(p.x), SideOf(p.y), isA))
  {
    hide Joined, SideOf, Reaches, AfterPoll, Follows, HasRoom, AfterHanding, ReceivePacket, SoundLine, Refused;
    ReachesItself(Sys(SideOf(x), SideOf(y), isA));
    match e
    case Turns(input) => PollMoves(x, y, input, isA);
    case Hands(p) => HandingMoves(x, y, p, isA);
    case Arms(buffer) => ArmingMoves(x, y, buffer);
    case Drops(i) =>
      JoinedIsSound(x, y);
      SoundWithout(x.line, i);
      LineStaysJoined(x, y, x.line[..i] + x.line[i + 1..]);
      DroppingMoves(x, SideOf(y), i, isA);
    case Garbles(i, body) =>
      JoinedIsSound(x, y);
      SoundWithout(x.line, i);
      LineStaysJoined(x, y, x.line[i := Garbled(body)]);
      DroppingMoves(x, SideOf(y), i, isA);
      GarblingIsDropping(x, i, body);
    case Litters(i, body) =>
      JoinedIsSound(x, y);
      SoundWith(x.line, i, body);
      LineStaysJoined(x, y, x.line[..i] + [Garbled(body)] + x.line[i..]);
      LitterIsUnseen(x, i, body);
  }

  lemma SoundWith(line: seq<Block>, i: nat, body: seq<Octet>)
    requires SoundLine(line) && i <= |line| && Refused(body)
    ensures SoundLine(line[..i] + [Garbled(body)] + line[i..])
  {
    hide Refused, Wire, FrameReception.WellFormed;
  }

  lemma LitterIsUnseen(x: End, i: nat, body: seq<Octet>)
    requires i <= |x.line|
    ensures SideOf(x.(line := x.line[..i] + [Garbled(body)] + x.line[i..])) == SideOf(x)
  {
    hide SentAll;
    var d := [Garbled(body)];
    SentAllConcat(x.line[..i] + d, x.line[i..]);
    SentAllConcat(x.line[..i], d);
    SentAllConcat(x.line[..i], x.line[i..]);
    SentAllOne(Garbled(body));
    assert x.line[..i] + x.line[i..] == x.line;
    assert SentAll(x.line[..i]) + [] == SentAll(x.line[..i]);
  }

  lemma JoinedIsSound(x: End, y: End)
    requires Joined(x, y)
    ensures SoundLine(x.line)
  {
  }

  // ---------- what the hosts are given ----------

  lemma GoIsMoves(j: Joint, h: Happening)
    requires Joined(j.a, j.b) && CanGo(j, h)
    ensures var k := Go(j, h);
            && Joined(k.a, k.b)
            && Reaches(System(SideOf(j.a), SideOf(j.b)), System(SideOf(k.a), SideOf(k.b)))
  {
    hide Wired, Happened, CanHappen, SideOf, Reaches;
    if h.byA {
      EventIsMoves(j.a, j.b, h.event, true);
    } else {
      EventIsMoves(j.b, j.a, h.event, false);
    }
  }

  /** Every run of the octet system is a run of TwoEngines. */
  lemma {:induction false} RunIsMoves(j: Joint, hs: seq<Happening>)
    requires Joined(j.a, j.b) && CanRun(j, hs)
    ensures var k := RunJoint(j, hs);
            && Joined(k.a, k.b)
            && Reaches(System(SideOf(j.a), SideOf(j.b)), System(SideOf(k.a), SideOf(k.b)))
    decreases hs
  {
    hide Joined, CanGo, Go, SideOf, Reaches;
    ReachesItself(System(SideOf(j.a), SideOf(j.b)));
    if hs != [] {
      var k := Go(j, hs[0]);
      GoIsMoves(j, hs[0]);
      RunIsMoves(k, hs[1..]);
      var m := RunJoint(k, hs[1..]);
      ReachesOn(System(SideOf(j.a), SideOf(j.b)), System(SideOf(k.a), SideOf(k.b)),
                System(SideOf(m.a), SideOf(m.b)));
    }
  }

  /** An engine as ubcsp_initialize leaves it, with nothing pending on either side of it. An escape code may be left
      over from before. */
  predicate FreshEnd(x: End) {
    && ValidState(x.state) && x.state.tx.size == 0 && x.state.rx.index == -4 && !x.state.rx.escaped
    && x.state.link == Initialize(x.state.link) && x.state.link.resp == 0 && x.state.link.out.None?
    && x.submitted == [] && x.retired == 0 && x.delivered == []
    && x.sending.None? && x.leftover == 0 && Transmission.NoneOrCode(x.state.tx.escape)
    && x.line == [] && x.partly.None? && x.unread == []
  }

  lemma FreshIsJoined(x: End, y: End)
    requires FreshEnd(x) && FreshEnd(y)
    ensures Joined(x, y) && Fresh(SideOf(x)) && Fresh(SideOf(y))
  {
    hide ValidState, Wire, Transmission.Sending, Transmission.ToSend, Partway;
  }

  lemma ReachedOnce(s: System, t: System)
    requires Fresh(s.a) && Fresh(s.b) && Reaches(s, t)
    ensures OncePerNumber(t.a, t.b) && OncePerNumber(t.b, t.a)
  {
    hide Valid, Final, Fresh, OncePerNumber;
    var moves :| Valid(moves, s) && Final(moves, s) == t;
    OncePerNumberDelivery(s, moves);
  }

  /** What the hosts get from one another over the octets, whatever is lost, damaged, split and replaced: of every
      packet number exactly one of the packets handed over under it, in order, at most one number ahead of what has
      been acknowledged. */
  lemma OctetsDeliverOnce(j: Joint, hs: seq<Happening>)
    requires FreshEnd(j.a) && FreshEnd(j.b) && CanRun(j, hs)
    ensures var k := RunJoint(j, hs);
            OncePerNumber(SideOf(k.a), SideOf(k.b)) && OncePerNumber(SideOf(k.b), SideOf(k.a))
  {
    hide Joined, FreshEnd, CanRun, RunJoint, SideOf, Reaches, Fresh, OncePerNumber;
    FreshIsJoined(j.a, j.b);
    RunIsMoves(j, hs);
    var k := RunJoint(j, hs);
    ReachedOnce(System(SideOf(j.a), SideOf(j.b)), System(SideOf(k.a), SideOf(k.b)));
  }

  /** The hosts hand over a packet only when none is pending. */
  ghost predicate PatientHosts(j: Joint, hs: seq<Happening>)
    requires CanRun(j, hs)
    decreases hs
  {
    hs != [] ==>
      && (hs[0].event.Hands? ==> (if hs[0].byA then j.a else j.b).state.link.out.None?)
      && PatientHosts(Go(j, hs[0]), hs[1..])
  }

  lemma {:induction false} ReadingSubmitsNothing(x: End, y: End, input: seq<Slip.Reading>)
    requires ValidState(x.state) && Follows(y, input)
    ensures var p := AfterReading(x, y, input); p.x.submitted == x.submitted && p.y.submitted == y.submitted
    decreases input
  {
    hide ReceiveOctet, ValidState, Retires;
    if x.state.rx.buffer.Some? && input != [] {
      ReceiveOctetIsValid(x.state, input[0]);
      ReadingSubmitsNothing(AfterOctet(x, input[0]), Took(y), input[1..]);
    }
  }

  lemma EventKeepsSingles(x: End, y: End, e: LineEvent)
    requires CanHappen(x, y, e) && Singles(x.submitted) && Singles(y.submitted)
    requires e.Hands? ==> x.state.link.out.None?
    ensures Singles(Happened(x, y, e).x.submitted) && Singles(Happened(x, y, e).y.submitted)
  {
    hide ValidState, AfterReading, Follows, TransmitIfDue, OnLine, ReceivePacket, SendPacket;
    if e.Turns? {
      TransmitIsValid(x.state);
      if !TransmitIfDue(x.state).early {
        ReadingSubmitsNothing(AfterTransmit(x), y, e.input);
      }
    }
  }

  lemma {:induction false} PatientHostsSingles(j: Joint, hs: seq<Happening>)
    requires CanRun(j, hs) && PatientHosts(j, hs) && Singles(j.a.submitted) && Singles(j.b.submitted)
    ensures Singles(RunJoint(j, hs).a.submitted) && Singles(RunJoint(j, hs).b.submitted)
    decreases hs
  {
    hide CanHappen, Happened, Singles;
    if hs != [] {
      if hs[0].byA {
        EventKeepsSingles(j.a, j.b, hs[0].event);
      } else {
        EventKeepsSingles(j.b, j.a, hs[0].event);
      }
      PatientHostsSingles(Go(j, hs[0]), hs[1..]);
    }
  }

  /** And with hosts that hand over a packet only when none is pending: exactly once and in order. */
  lemma OctetsDeliverExactlyOnce(j: Joint, hs: seq<Happening>)
    requires FreshEnd(j.a) && FreshEnd(j.b) && CanRun(j, hs) && PatientHosts(j, hs)
    ensures var k := RunJoint(j, hs);
            ExactlyOnce(SideOf(k.a), SideOf(k.b)) && ExactlyOnce(SideOf(k.b), SideOf(k.a))
  {
    hide CanRun, RunJoint, ExactlyOnce, OncePerNumber, ValidState, WireOf;
    OctetsDeliverOnce(j, hs);
    PatientHostsSingles(j, hs);
    var k := RunJoint(j, hs);
    OncePerNumberIsOnce(SideOf(k.a), SideOf(k.b));
    OncePerNumberIsOnce(SideOf(k.b), SideOf(k.a));
  }

  // ---------- hosts that keep to the contract ----------

  /** What reading an octet does to the link is nothing, or what Reject or Accept does. */
  lemma OctetOutcome(s: State, r: Slip.Reading)
    requires ValidState(s) && s.rx.buffer.Some?
    ensures var p := ReceiveOctet(s, r);
            || (p.actions == [] && p.state.link == s.link && p.activity == QUIET)
            || (p.actions == [Rejected] && p.state.link == Reject(s.link) && p.activity == QUIET)
            || (|p.actions| == 1 && p.actions[0].Accepted? && p.state.link == Accept(s.link, p.actions[0].seen).link &&
                p.activity == Accept(s.link, p.actions[0].seen).activity)
  {
    hide Intact, Accept, WhichLe, DecodeHeader, Store, Slip.Decode, PayloadOf;
  }

  lemma BothReached(x: Side, y: Side, x1: Side, y1: Side)
    requires Both(x, y) && Reaches(Sys(x, y, true), Sys(x1, y1, true))
    ensures Both(x1, y1)
  {
    hide Valid, Final, Both;
    var s := Sys(x, y, true);
    var moves :| Valid(moves, s) && Final(moves, s) == Sys(x1, y1, true);
    InvariantHolds(s, moves);
  }

  /** No octet that is read makes an engine take its peer for restarted. */
  lemma OctetDoesNotReset(x: End, y: End, r: Slip.Reading)
    requires ValidState(x.state) && Listens(x, y) && SoundLine(y.line) && Both(SideOf(x), SideOf(y)) && HasRoom(x, y)
    requires x.state.rx.buffer.Some? && HasNext(y) && r.value == NextOctet(y)
    ensures var p := ReceiveOctet(x.state, r);
            |p.actions| == 1 && p.actions[0].Accepted? ==> !Accept(x.state.link, p.actions[0].seen).reset
  {
    UnreadIsPartly(x, y);
    hide ValidState, Emits, SoundLine, SideOf, Both, ReceiveOctet, Accept, See, Partway, RoomFor, Wire;
    hide FrameReception.WellFormed, Refused;
    if y.partly.None? {
      OpeningIsSilent(x, y, r);
    } else {
      var n: nat :| Partway(x.state.rx, y.unread, BodyIn(y.partly.value), n);
      if |y.unread| > 1 {
        InsideStep(x.state, r, y.unread, BodyIn(y.partly.value), n);
      } else {
        ClosingCollects(x.state.rx, y.unread, BodyIn(y.partly.value), n);
        ClosingDoesNotReset(x, y, r);
      }
    }
  }

  lemma OpeningIsSilent(x: End, y: End, r: Slip.Reading)
    requires ValidState(x.state) && Listens(x, y) && SoundLine(y.line)
    requires x.state.rx.buffer.Some? && y.partly.None? && HasNext(y)
    requires r.value == NextOctet(y)
    ensures ReceiveOctet(x.state, r).actions == []
  {
    hide ValidState, Emits, Slip.Encode, FrameReception.Collects, FrameReception.WellFormed, Refused;
    assert Sound(y.line[0]);
    FramedOctets(y.line[0]);
    FrameReception.FirstFrameOctet(x.state, r);
  }

  lemma ClosingDoesNotReset(x: End, y: End, r: Slip.Reading)
    requires ValidState(x.state) && Both(SideOf(x), SideOf(y))
    requires x.state.rx.buffer.Some? && !x.state.rx.escaped && r.value == Slip.FRAME
    requires y.partly.Some? && Sound(y.partly.value) && RoomFor(x.state.rx, y.partly.value)
    requires FrameReception.Collects(x.state.rx, Slip.Decoded(false, BodyIn(y.partly.value)))
    ensures var p := ReceiveOctet(x.state, r);
            |p.actions| == 1 && p.actions[0].Accepted? ==> !Accept(x.state.link, p.actions[0].seen).reset
  {
    hide ValidState, SideOf, Both, BoundaryReception, Accept, See, FrameReception.Collects, FrameReception.WellFormed;
    hide Refused, Wire;
    match y.partly.value {
      case Whole(_, sent) =>
        FrameReception.ArrivedFrame(x.state, sent.frame);
        FirstOfWire(y);
        NoSpuriousReset(SideOf(x), SideOf(y));
        assert SideOf(x).link == x.state.link by { LinkOfSide(x); }
      case Spoiled(_, code, frame) =>
        SpoiledVerdict(x.state, code, frame);
      case Garbled(body) =>
        DamagedVerdict(x.state, body);
    }
  }

  lemma LinkOfSide(x: End)
    ensures SideOf(x).link == x.state.link
  {
  }

  lemma OctetKeepsCalm(x: End, y: End, r: Slip.Reading, may: bool)
    requires Joined(x, y) && Both(SideOf(x), SideOf(y)) && HasRoom(x, y) && Calm(x.state.link, may)
    requires x.state.rx.buffer.Some? && HasNext(y) && r.value == NextOctet(y)
    ensures var p := ReceiveOctet(x.state, r);
            Calm(p.state.link, may || p.activity.sent) && !p.activity.reset
  {
    hide Both, HasRoom, ReceiveOctet, Accept, ValidState, Emits, Listens, SoundLine;
    OctetOutcome(x.state, r);
    OctetDoesNotReset(x, y, r);
    var p := ReceiveOctet(x.state, r);
    if |p.actions| == 1 && p.actions[0].Accepted? {
      AcceptKeepsCalm(x.state.link, p.actions[0].seen, may);
      NoResetNoReport(x.state.link, p.actions[0].seen);
    }
  }

  lemma JoinedIsValid(x: End, y: End)
    requires Joined(x, y)
    ensures ValidState(x.state)
  {
  }

  lemma NoResetNoReport(l: Link, s: Seen)
    ensures Accept(l, s).activity.reset ==> Accept(l, s).reset
  {
    hide Increment;
  }

  lemma {:induction false} ReadingKeepsCalm(x: End, y: End, input: seq<Slip.Reading>, may: bool)
    requires Joined(x, y) && Both(SideOf(x), SideOf(y)) && HasRoom(x, y) && Calm(x.state.link, may)
    requires Follows(y, input)
    ensures ValidState(x.state)
    ensures var r := Receive(x.state, input);
            Calm(r.state.link, may || r.activity.sent) && !r.activity.reset
    decreases input
  {
    JoinedIsValid(x, y);
    hide ValidState, Joined, Both, SideOf, Reaches, AfterOctet, Took, HasRoom, Calm, Receive, ReceiveOctet;
    if x.state.rx.buffer.Some? && input != [] {
      ReceiveFirst(x.state, input);
      OctetMoves(x, y, input[0], true);
      OctetKeepsCalm(x, y, input[0], may);
      var x1, y1 := AfterOctet(x, input[0]), Took(y);
      AfterOctetState(x, input[0]);
      BothReached(SideOf(x), SideOf(y), SideOf(x1), SideOf(y1));
      ReadingKeepsCalm(x1, y1, input[1..], may || ReceiveOctet(x.state, input[0]).activity.sent);
    } else {
      ReadNothing(x.state, input);
    }
  }

  lemma AfterOctetState(x: End, r: Slip.Reading)
    requires ValidState(x.state) && x.state.rx.buffer.Some?
    ensures AfterOctet(x, r).state == ReceiveOctet(x.state, r).state
  {
    hide ReceiveOctet, ValidState, Retires;
  }

  /** Nothing unreliable is ever pending, so that the transmitting half reports nothing. */
  lemma TransmitKeepsCalm(x: End, may: bool)
    requires ValidState(x.state) && Calm(x.state.link, may)
    requires x.state.link.out.Some? ==> MaySubmit(x.state.link.out.value)
    ensures Calm(TransmitIfDue(x.state).state.link, may) && !TransmitIfDue(x.state).sent
    ensures AfterTransmit(x).state == TransmitIfDue(x.state).state
  {
    hide NextFrame, Setup, EncodeHeader, HeaderOf, Advance, Wire, Transmission.ToSend, Transmission.Sending;
    StartKeepsCalm(x.state.link, may);
  }

  /** Over a poll: a host that may submit afterwards finds nothing pending, and the engine never reports that its peer
      has restarted. */
  lemma PollKeepsCalm(x: End, y: End, input: seq<Slip.Reading>, may: bool)
    requires Joined(x, y) && Both(SideOf(x), SideOf(y)) && Follows(y, input) && HasRoom(x, y)
    requires Calm(x.state.link, may)
    ensures ValidState(x.state)
    ensures var p := Poll(x.state, input);
            Calm(p.state.link, may || p.activity.sent) && !p.activity.reset
  {
    JoinedIsValid(x, y);
    TransmitIsValid(x.state);
    TransmitKeepsCalm(x, may);
    TransmitJoined(x, y, true);
    TransmitKeepsRoom(x, y);
    hide ValidState, Both, SideOf, Reaches, HasRoom, Calm, Receive, TransmitIfDue, AfterTransmit, Joined;
    var x1 := AfterTransmit(x);
    BothReached(SideOf(x), SideOf(y), SideOf(x1), SideOf(y));
    if !TransmitIfDue(x.state).early {
      ReadingKeepsCalm(x1, y, input, may);
    }
  }

  /** A host may hand over a packet once a poll has reported a packet as sent, and until it has done so. */
  predicate MayThen(x: End, e: LineEvent, may: bool)
    requires ValidState(x.state)
  {
    match e
    case Turns(input) => may || Poll(x.state, input).activity.sent
    case Hands(_) => false
    case _ => may
  }

  /** Every packet is handed over after such a report, the first one after the first report. */
  ghost predicate HostsObey(j: Joint, hs: seq<Happening>, mayA: bool, mayB: bool)
    requires CanRun(j, hs)
    decreases hs
  {
    hs != [] ==>
      var h := hs[0];
      && (h.event.Hands? ==> if h.byA then mayA else mayB)
      && HostsObey(Go(j, h), hs[1..], if h.byA then MayThen(j.a, h.event, mayA) else mayA,
                   if h.byA then mayB else MayThen(j.b, h.event, mayB))
  }

  lemma EventKeepsCalm(x: End, y: End, e: LineEvent, may: bool)
    requires Joined(x, y) && Both(SideOf(x), SideOf(y)) && CanHappen(x, y, e) && Calm(x.state.link, may)
    requires e.Hands? ==> may
    ensures Calm(Happened(x, y, e).x.state.link, MayThen(x, e, may))
    ensures Happened(x, y, e).y.state == y.state
  {
    hide Joined, Both, SideOf, Poll, Follows, HasRoom, AfterReading, TransmitIfDue, Filed, OnLine, ValidState;
    if e.Turns? {
      PollKeepsCalm(x, y, e.input, may);
      PollIsPoll(x, y, e.input);
      PollLeavesPeer(x, y, e.input);
    }
  }

  lemma {:induction false} ReadingLeavesPeer(x: End, y: End, input: seq<Slip.Reading>)
    requires ValidState(x.state) && Follows(y, input)
    ensures AfterReading(x, y, input).y.state == y.state
    decreases input
  {
    hide ReceiveOctet, ValidState, Retires;
    if x.state.rx.buffer.Some? && input != [] {
      ReceiveOctetIsValid(x.state, input[0]);
      ReadingLeavesPeer(AfterOctet(x, input[0]), Took(y), input[1..]);
    }
  }

  lemma PollLeavesPeer(x: End, y: End, input: seq<Slip.Reading>)
    requires ValidState(x.state) && Follows(y, input)
    ensures AfterPoll(x, y, input).y.state == y.state
  {
    hide TransmitIfDue, AfterReading, ValidState, Follows;
    TransmitIsValid(x.state);
    if !TransmitIfDue(x.state).early {
      ReadingLeavesPeer(AfterTransmit(x), y, input);
    }
  }

  lemma {:induction false} ObeyingIsPatient(j: Joint, hs: seq<Happening>, mayA: bool, mayB: bool)
    requires Joined(j.a, j.b) && Both(SideOf(j.a), SideOf(j.b)) && CanRun(j, hs) && HostsObey(j, hs, mayA, mayB)
    requires Calm(j.a.state.link, mayA) && Calm(j.b.state.link, mayB)
    ensures PatientHosts(j, hs)
    decreases hs
  {
    hide Wired, Both, SideOf, Reaches, CanHappen, Happened, MayThen;
    if hs != [] {
      var h := hs[0];
      BothSwaps(SideOf(j.a), SideOf(j.b));
      if h.byA {
        StepKeepsCalm(j.a, j.b, h.event, mayA);
      } else {
        StepKeepsCalm(j.b, j.a, h.event, mayB);
        BothSwaps(SideOf(Go(j, h).a), SideOf(Go(j, h).b));
      }
      ObeyingIsPatient(Go(j, h), hs[1..], if h.byA then MayThen(j.a, h.event, mayA) else mayA,
                       if h.byA then mayB else MayThen(j.b, h.event, mayB));
    }
  }

  lemma StepKeepsCalm(x: End, y: End, e: LineEvent, may: bool)
    requires Joined(x, y) && Both(SideOf(x), SideOf(y)) && CanHappen(x, y, e) && Calm(x.state.link, may)
    requires e.Hands? ==> may
    ensures ValidState(x.state)
    ensures var p := Happened(x, y, e);
            && Joined(p.x, p.y) && Both(SideOf(p.x), SideOf(p.y))
            && Calm(p.x.state.link, MayThen(x, e, may)) && p.y.state == y.state
    ensures e.Hands? ==> x.state.link.out.None?
  {
    JoinedIsValid(x, y);
    EventKeepsCalm(x, y, e, may);
    hide Joined, Both, SideOf, Reaches, Happened, CanHappen, ValidState;
    EventIsMoves(x, y, e, true);
    var p := Happened(x, y, e);
    BothReached(SideOf(x), SideOf(y), SideOf(p.x), SideOf(p.y));
  }

  /** The contract that the engine asks of its host is enough octet by octet: with hosts that hand over every packet,
      the first one included, only after a poll has reported a packet as sent, delivery is exactly once and in order. */
  lemma OctetsContractDelivers(j: Joint, hs: seq<Happening>)
    requires FreshEnd(j.a) && FreshEnd(j.b) && CanRun(j, hs) && HostsObey(j, hs, false, false)
    ensures var k := RunJoint(j, hs);
            ExactlyOnce(SideOf(k.a), SideOf(k.b)) && ExactlyOnce(SideOf(k.b), SideOf(k.a))
  {
    hide Joined, CanRun, RunJoint, ExactlyOnce, SideOf, HostsObey, PatientHosts, ValidState, Fresh, Both;
    FreshIsJoined(j.a, j.b);
    FreshIsValid(SideOf(j.a), SideOf(j.b));
    ObeyingIsPatient(j, hs, false, false);
    OctetsDeliverExactlyOnce(j, hs);
  }

  // ---------- no spurious reset ----------

  lemma {:induction false} ReadingNeverResets(x: End, y: End, input: seq<Slip.Reading>)
    requires Joined(x, y) && Both(SideOf(x), SideOf(y)) && HasRoom(x, y) && Follows(y, input)
    ensures ValidState(x.state) && !Receive(x.state, input).activity.reset
    decreases input
  {
    JoinedIsValid(x, y);
    hide ValidState, Joined, Both, SideOf, Reaches, AfterOctet, Took, HasRoom, Receive, ReceiveOctet, Accept;
    if x.state.rx.buffer.Some? && input != [] {
      var p := ReceiveOctet(x.state, input[0]);
      ReceiveFirst(x.state, input);
      OctetMoves(x, y, input[0], true);
      OctetOutcome(x.state, input[0]);
      OctetDoesNotReset(x, y, input[0]);
      if p.actions != [] && p.actions[0].Accepted? {
        NoResetNoReport(x.state.link, p.actions[0].seen);
      }
      AfterOctetState(x, input[0]);
      BothReached(SideOf(x), SideOf(y), SideOf(AfterOctet(x, input[0])), SideOf(Took(y)));
      ReadingNeverResets(AfterOctet(x, input[0]), Took(y), input[1..]);
    } else {
      ReadNothing(x.state, input);
    }
  }

  lemma PollNeverResets(x: End, y: End, input: seq<Slip.Reading>)
    requires Joined(x, y) && Both(SideOf(x), SideOf(y)) && Follows(y, input) && HasRoom(x, y)
    ensures ValidState(x.state) && !Poll(x.state, input).activity.reset
  {
    JoinedIsValid(x, y);
    TransmitIsValid(x.state);
    TransmitJoined(x, y, true);
    TransmitKeepsRoom(x, y);
    TransmitState(x);
    hide ValidState, Both, SideOf, Reaches, HasRoom, Receive, TransmitIfDue, AfterTransmit, Joined;
    var x1 := AfterTransmit(x);
    BothReached(SideOf(x), SideOf(y), SideOf(x1), SideOf(y));
    if !TransmitIfDue(x.state).early {
      ReadingNeverResets(x1, y, input);
    }
  }

  lemma TransmitState(x: End)
    requires ValidState(x.state)
    ensures AfterTransmit(x).state == TransmitIfDue(x.state).state
  {
    hide TransmitIfDue, ValidState;
  }

  /** Whatever the hosts hand over and whatever the line does to the octets, no poll ever reports that the peer has
      restarted. */
  lemma OctetsNeverReset(j: Joint, hs: seq<Happening>, isA: bool, input: seq<Slip.Reading>)
    requires FreshEnd(j.a) && FreshEnd(j.b) && CanRun(j, hs)
    requires var k := RunJoint(j, hs); CanGo(k, Happening(isA, Turns(input)))
    ensures var k := RunJoint(j, hs); !Poll((if isA then k.a else k.b).state, input).activity.reset
  {
    hide Joined, CanRun, RunJoint, SideOf, Both, Fresh, Reaches, HasRoom, Follows, ValidState, Poll;
    FreshIsJoined(j.a, j.b);
    FreshIsValid(SideOf(j.a), SideOf(j.b));
    RunIsMoves(j, hs);
    var k := RunJoint(j, hs);
    BothReached(SideOf(j.a), SideOf(j.b), SideOf(k.a), SideOf(k.b));
    BothSwaps(SideOf(k.a), SideOf(k.b));
    JoinedSwaps(k.a, k.b);
    if isA {
      PollNeverResets(k.a, k.b, input);
    } else {
      PollNeverResets(k.b, k.a, input);
    }
  }

  lemma JoinedSwaps(x: End, y: End)
    ensures Joined(x, y) <==> Joined(y, x)
  {
    hide Wired;
  }
}
