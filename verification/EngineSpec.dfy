/** The engine one octet at a time, on values: what a poll sends, receives and reports. The class MicroBcsp in
    module Engine keeps the same state in fields and buffers, and its methods are proved to do what these
    functions say. */
module EngineSpec {
  import opened Crc
  import opened Framing
  import opened FrameLevel
  import Slip

  const POLL_DELAY: nat := 25

  // ---------- the state ----------

  /** The transmitter. escape: the second octet of an escape sequence still to go out, 0 if none.
      unsent: the octets of the current block not yet fetched. size: what send_size counts, namely those and
      the octet whose escape sequence is half out, unless the frame has been abandoned. next: the block after
      this one. */
  datatype Tx = Tx(escape: Octet, unsent: seq<Octet>, size: nat, next: Option<seq<Octet>>,
                   crc: Register, needCrc: bool)

  /** The host's packet to receive into: the capacity it announced, and the buffer. */
  datatype Buffer = Buffer(capacity: nat, octets: seq<Octet>)

  /** The receiver. index: -4 .. -1 while the header is being collected, then the number of octets stored. */
  datatype Rx = Rx(escaped: bool, index: int, header: seq<Octet>, buffer: Option<Buffer>)

  datatype State = State(link: Link, tx: Tx, rx: Rx, delay: nat)

  predicate ValidTx(tx: Tx) {
    tx.size == (if tx.escape != 0 then |tx.unsent| + 1 else |tx.unsent|) || (tx.size == 0 && tx.unsent == [])
  }

  /** The capacity fits the buffer, and the buffer holds at least the four octets in which the engine looks for
      link establishment payloads. */
  predicate ValidBuffer(b: Buffer) {
    b.capacity <= |b.octets| && 4 <= |b.octets|
  }

  predicate ValidRx(rx: Rx) {
    && |rx.header| == 4
    && -4 <= rx.index
    && (rx.buffer.None? ==> rx.index == -4)
    && (rx.buffer.Some? ==> ValidBuffer(rx.buffer.value) && (rx.index >= 0 ==> rx.index <= rx.buffer.value.capacity))
  }

  predicate ValidState(s: State) {
    ValidTx(s.tx) && ValidRx(s.rx) && s.delay <= POLL_DELAY
  }

  // ---------- what the host calls ----------

  /** The frame being sent is abandoned. What was to follow in it can no longer be reached. */
  function Idle(tx: Tx): Tx {
    tx.(unsent := [], size := 0, next := None)
  }

  /** ubcsp_initialize: pending packets, the pending response, the ack request and both escape flags stay. */
  function InitializeEngine(s: State): State {
    State(Initialize(s.link), Idle(s.tx), s.rx.(index := -4), 0)
  }

  /** ubcsp_send_packet: whatever is being sent is cut short. */
  function SendPacket(s: State, p: Packet): State {
    s.(link := Submit(s.link, p), tx := Idle(s.tx))
  }

  /** ubcsp_receive_packet. */
  function ReceivePacket(s: State, b: Buffer): State {
    s.(rx := s.rx.(buffer := Some(b), index := -4))
  }

  // ---------- sending ----------

  /** ubcsp_put_slip_uart: the octet put on the line, and the escape code left for later. */
  function PutSlip(ch: Octet): (Octet, Octet) {
    if ch == Slip.FRAME then (Slip.ESCAPE, Slip.ESCAPE_FRAME)
    else if ch == Slip.ESCAPE then (Slip.ESCAPE, Slip.ESCAPE_ESCAPE)
    else (ch, 0)
  }

  /** The next octet of the current block goes out, or the second half of an escape sequence. */
  function SendOctet(tx: Tx): (Tx, Octet)
    requires ValidTx(tx) && tx.size != 0
  {
    if tx.escape != 0 then
      (tx.(escape := 0), tx.escape)
    else
      var ch := tx.unsent[0];
      var (out, escape) := PutSlip(ch);
      (tx.(escape := escape, unsent := tx.unsent[1..], crc := Step(ch, tx.crc)), out)
  }

  /** The octets of the CRC block. */
  function CrcBlock(r: Register): (s: seq<Octet>)
    ensures |s| == 2
  {
    [HighOctet(Reverse(r)), LowOctet(Reverse(r))]
  }

  /** After a block: the next block, or else the CRC, or else the end of the frame. */
  function EndOfBlock(tx: Tx): (Tx, bool) {
    match tx.next
    case Some(block) => (tx.(unsent := block, size := |block|, next := None), false)
    case None =>
      if tx.needCrc then
        (tx.(unsent := CrcBlock(tx.crc), size := 2, crc := Reverse(tx.crc), needCrc := false), false)
      else
        (tx.(unsent := [], size := 0), true)
  }

  /** One octet further. The flag tells whether this was the last one before the closing FRAME. */
  function Advance(tx: Tx): (Tx, Octet, bool)
    requires ValidTx(tx) && tx.size != 0
  {
    var (tx1, out) := SendOctet(tx);
    if tx1.escape != 0 then (tx1, out, false)
    else
      var tx2 := tx1.(size := tx1.size - 1);
      if tx2.size != 0 then (tx2, out, false)
      else
        var (tx3, ended) := EndOfBlock(tx2);
        (tx3, out, ended)
  }

  /** ubcsp_setup_packet. If an escape code is still pending from an abandoned frame, it takes the place of one
      header octet. */
  function Setup(tx: Tx, header: seq<Octet>, block: Option<seq<Octet>>): Tx
    requires |header| == 4
  {
    Tx(tx.escape, if tx.escape != 0 then header[..3] else header, 4, block, PRESET, true)
  }

  /** Ack frames have no second block; every other frame has one, even if it is empty. */
  function SecondBlock(l: Link, f: Frame): Option<seq<Octet>> {
    if l.pkt == NONE && l.resp != RESPOND_CONF && l.out.None? then None else Some(f.payload)
  }

  /** What a poll does before it looks at the UART. early: it returns there and then. */
  datatype Transmission = Transmission(state: State, output: seq<Octet>, sent: bool, delay: nat, early: bool,
                                       actions: seq<Action>)

  function Transmit(s: State): Transmission
    requires ValidState(s)
  {
    if s.tx.size != 0 then
      var (tx, out, ended) := Advance(s.tx);
      if ended then
        var link := FinishFrame(s.link);
        Transmission(s.(tx := tx, link := link), [out, Slip.FRAME], s.link.out.Some? && link.out.None?, POLL_DELAY,
                     false, [Finish])
      else
        Transmission(s.(tx := tx), [out], false, 0, false, [])
    else
      var n := NextFrame(s.link);
      match n.frame
      case None => Transmission(s, [], false, POLL_DELAY, false, [])
      case Some(f) =>
        var tx := Setup(s.tx, EncodeHeader(HeaderOf(f)), SecondBlock(s.link, f));
        Transmission(s.(link := n.link, tx := tx), [Slip.FRAME], false, 0, s.link.pkt != NONE, [Start])
  }

  // ---------- receiving ----------

  /** The receiver after an octet, with any finished frame taken out. */
  function Store(rx: Rx, ch: Octet): Rx
    requires ValidRx(rx) && rx.buffer.Some?
  {
    var b := rx.buffer.value;
    if rx.index < 0 then
      rx.(header := rx.header[rx.index + 4 := ch], index := rx.index + 1)
    else if rx.index < b.capacity then
      rx.(buffer := Some(b.(octets := b.octets[rx.index := ch])), index := rx.index + 1)
    else
      rx
  }

  /** What was stored after the header. */
  function Stored(rx: Rx): seq<Octet>
    requires ValidRx(rx) && rx.buffer.Some? && rx.index >= 0
  {
    rx.buffer.value.octets[..rx.index]
  }

  /** What the link sees of the collected frame: link establishment is looked for at the start of the buffer,
      whether or not that much was received. */
  function Collected(rx: Rx): Seen
    requires ValidRx(rx) && rx.buffer.Some? && rx.index >= 0 && Intact(rx.header, Stored(rx))
  {
    var h := DecodeHeader(rx.header);
    Seen(h.reliable, h.ackNo, h.seqNo, h.channel, h.length != 0, WhichLe(rx.buffer.value.octets))
  }

  datatype Reception = Reception(state: State, activity: Activity, delivered: Option<Packet>, actions: seq<Action>)

  /** ubcsp_recevied_packet: the closing FRAME of a frame with a complete header. */
  function ReceivedPacket(s: State): Reception
    requires ValidState(s) && s.rx.buffer.Some? && s.rx.index >= 0
  {
    if !Intact(s.rx.header, Stored(s.rx)) then
      Reception(s.(link := Reject(s.link)), QUIET, None, [Rejected])
    else
      var seen := Collected(s.rx);
      var e := Accept(s.link, seen);
      var h := DecodeHeader(s.rx.header);
      Reception(
        State(e.link,
              if e.cut then Idle(s.tx) else s.tx,
              if e.delivered then s.rx.(buffer := None) else s.rx,
              if e.prompt then 0 else s.delay),
        e.activity,
        if e.delivered then Some(Packet(h.channel, h.reliable, PayloadOf(s.rx.header, Stored(s.rx)))) else None,
        [Accepted(seen)])
  }

  /** A FRAME octet ends the frame being collected, if its header is complete, and starts the next one. */
  function BoundaryReception(s: State): Reception
    requires ValidState(s) && s.rx.buffer.Some?
  {
    var p := if s.rx.index >= 0 then ReceivedPacket(s) else Reception(s, QUIET, None, []);
    p.(state := p.state.(rx := p.state.rx.(index := -4), delay := if p.activity.ack then 0 else p.state.delay))
  }

  function ReceiveOctet(s: State, r: Slip.Reading): Reception
    requires ValidState(s) && s.rx.buffer.Some?
  {
    match Slip.Decode(s.rx.escaped, r)
    case Plain(ch) =>
      Reception(s.(rx := Store(s.rx, ch).(escaped := false)), QUIET, None, [])
    case Escaping =>
      Reception(s.(rx := s.rx.(escaped := true)), QUIET, None, [])
    case Boundary =>
      BoundaryReception(s)
  }

  /** Everything a poll reads: octets are taken from the UART as long as there are any and there is a packet to
      receive into. */
  datatype Reading = Reading(state: State, rest: seq<Slip.Reading>, activity: Activity, delivered: Option<Packet>,
                             actions: seq<Action>)

  function Receive(s: State, input: seq<Slip.Reading>): Reading
    requires ValidState(s)
    decreases input
  {
    if s.rx.buffer.None? || input == [] then Reading(s, input, QUIET, None, [])
    else
      var p := ReceiveOctet(s, input[0]);
      ReceiveOctetIsValid(s, input[0]);
      var r := Receive(p.state, input[1..]);
      Reading(r.state, r.rest, p.activity.Or(r.activity), if p.delivered.Some? then p.delivered else r.delivered,
              p.actions + r.actions)
  }

  /** A frame leaves the header, the escape flag and the buffer alone, or hands the buffer over. */
  lemma BoundaryIsValid(s: State)
    requires ValidState(s) && s.rx.buffer.Some?
    ensures var p := BoundaryReception(s);
            && ValidState(p.state) && p.state.delay <= s.delay
            && p.state.rx == s.rx.(index := -4, buffer := if p.delivered.Some? then None else s.rx.buffer)
            && (p.activity.ack ==> p.delivered.Some?)
            && (s.rx.index >= 0 ==>
                  && ReceivedPacket(s).state.rx == s.rx.(buffer := p.state.rx.buffer)
                  && ReceivedPacket(s).delivered == p.delivered)
  {
    hide Intact, WhichLe, Increment, Retire;
  }

  lemma ReceiveOctetIsValid(s: State, r: Slip.Reading)
    requires ValidState(s) && s.rx.buffer.Some?
    ensures var p := ReceiveOctet(s, r);
            && ValidState(p.state) && p.state.delay <= s.delay
            && (p.activity.ack ==> p.delivered.Some?)
            && (p.delivered.Some? ==> p.state.rx.buffer.None?)
  {
    hide BoundaryReception, Slip.Deslip;
    BoundaryIsValid(s);
  }

  lemma ReceiveFirst(s: State, input: seq<Slip.Reading>)
    requires ValidState(s) && s.rx.buffer.Some? && input != []
    ensures var p := ReceiveOctet(s, input[0]);
            && ValidState(p.state)
            && var r := Receive(p.state, input[1..]);
               Receive(s, input) ==
                 Reading(r.state, r.rest, p.activity.Or(r.activity),
                         if p.delivered.Some? then p.delivered else r.delivered, p.actions + r.actions)
  {
    hide ReceiveOctet, ValidState;
    ReceiveOctetIsValid(s, input[0]);
  }

  lemma ReadNothing(s: State, input: seq<Slip.Reading>)
    requires ValidState(s) && (s.rx.buffer.None? || input == [])
    ensures Receive(s, input) == Reading(s, input, QUIET, None, [])
  {
  }

  // ---------- a poll ----------

  /** value: what the poll returns to its caller, the delay it may wait before the next poll. */
  datatype Polled = Polled(state: State, output: seq<Octet>, rest: seq<Slip.Reading>, activity: Activity, value: nat,
                           delivered: Option<Packet>, actions: seq<Action>)

  function Countdown(s: State, delay: nat): State {
    s.(delay := if s.delay > 0 then s.delay - 1 else delay)
  }

  /** The transmitting half of a poll runs only when no delay is running. */
  function TransmitIfDue(s: State): Transmission
    requires ValidState(s)
  {
    if s.delay == 0 then Transmit(s) else Transmission(s, [], false, 0, false, [])
  }

  function Poll(s: State, input: seq<Slip.Reading>): Polled
    requires ValidState(s)
  {
    var t := TransmitIfDue(s);
    TransmitIsValid(s);
    if t.early then
      Polled(t.state, t.output, input, QUIET, 0, None, t.actions)
    else
      var r := Receive(t.state, input);
      var state := Countdown(r.state, t.delay);
      Polled(state, t.output, r.rest, QUIET.(sent := t.sent).Or(r.activity), state.delay, r.delivered,
             t.actions + r.actions)
  }

  lemma AdvanceIsValid(tx: Tx)
    requires ValidTx(tx) && tx.size != 0
    ensures ValidTx(Advance(tx).0)
  {
    hide Step, CrcBlock, Reverse;
  }

  lemma TransmitIsValid(s: State)
    requires ValidState(s)
    ensures ValidState(TransmitIfDue(s).state)
    ensures var t := TransmitIfDue(s); t.state.rx == s.rx && t.state.delay == s.delay && t.delay <= POLL_DELAY
  {
    hide Advance, EncodeHeader, NextFrame, ValidRx, FinishFrame;
    if s.tx.size != 0 {
      AdvanceIsValid(s.tx);
    }
  }
}
