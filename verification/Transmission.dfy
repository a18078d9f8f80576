/** What the engine puts on the line: over an uninterrupted run of polls, exactly the stuffed octets of the frame
    it started, and of an unacknowledged packet the same frame again and again with a fixed period. */
module Transmission {
  import opened Crc
  import opened Framing
  import opened FrameLevel
  import opened EngineSpec
  import Slip

  // ---------- the transmitter alone ----------

  /** The octets of the frame that have not been fetched, before stuffing. */
  function Remaining(tx: Tx): seq<Octet> {
    var message := tx.unsent + (if tx.next.Some? then tx.next.value else []);
    message + (if tx.needCrc then CrcBlock(Crc.Crc(message, tx.crc)) else [])
  }

  /** The octets of the frame that have not been put on the line. */
  function ToSend(tx: Tx): seq<Octet> {
    (if tx.escape != 0 then [tx.escape] else []) + Slip.Encode(Remaining(tx)) + [Slip.FRAME]
  }

  /** In the middle of a frame. */
  predicate Sending(tx: Tx) {
    && tx.size != 0
    && tx.size == |tx.unsent| + (if tx.escape != 0 then 1 else 0)
    && (tx.next.Some? ==> tx.next.value != [])
  }

  lemma FetchOctet(tx: Tx)
    requires Sending(tx) && tx.escape == 0
    ensures var fetched := tx.(unsent := tx.unsent[1..], crc := Step(tx.unsent[0], tx.crc));
            Remaining(tx) == [tx.unsent[0]] + Remaining(fetched)
  {
    hide Step, CrcBlock;
    var next := if tx.next.Some? then tx.next.value else [];
    assert (tx.unsent + next)[0] == tx.unsent[0];
    assert (tx.unsent + next)[1..] == tx.unsent[1..] + next;
    assert tx.unsent + next == [tx.unsent[0]] + (tx.unsent[1..] + next);
  }

  lemma BlockEnds(tx: Tx)
    requires tx.unsent == [] && tx.size == 0 && (tx.next.Some? ==> tx.next.value != [])
    ensures var (tx', ended) := EndOfBlock(tx);
            && (!ended ==> Remaining(tx') == Remaining(tx) && tx'.escape == tx.escape &&
                           (tx.escape == 0 ==> Sending(tx')))
            && (ended ==> Remaining(tx) == [] && tx'.size == 0 && tx'.escape == tx.escape)
  {
    hide CrcBlock, Reverse, Step;
    if tx.next.Some? {
      assert [] + tx.next.value == tx.next.value + [];
    } else {
      assert Crc.Crc([] + [], tx.crc) == tx.crc;
      assert tx.unsent + [] == [];
    }
  }

  lemma PutSlipIsEncode(ch: Octet)
    ensures var (out, escape) := PutSlip(ch);
            Slip.EncodeOctet(ch) == [out] + (if escape != 0 then [escape] else [])
  {
  }

  lemma EscapeIsNotRemaining(a: Tx, b: Tx)
    requires b == a.(escape := b.escape, size := b.size)
    ensures Remaining(a) == Remaining(b)
  {
  }

  lemma Regrouped(out: Octet, code: seq<Octet>, e: seq<Octet>)
    ensures [] + (([out] + code) + e) + [Slip.FRAME] == [out] + (code + e + [Slip.FRAME])
    ensures [out] + e + [Slip.FRAME] == [out] + ([] + e + [Slip.FRAME])
  {
  }

  lemma OctetGoesOut(tx: Tx)
    requires Sending(tx) && ValidTx(tx)
    ensures var (tx1, out) := SendOctet(tx);
            && ToSend(tx) == [out] + ToSend(tx1)
            && tx1.size == tx.size && tx1.next == tx.next
            && (tx1.escape == 0 ==> tx1.size == |tx1.unsent| + 1)
            && (tx1.escape != 0 ==> Sending(tx1))
  {
    hide PutSlip, Step, CrcBlock, Remaining, Slip.EncodeOctet;
    var (tx1, out) := SendOctet(tx);
    var code, e := if tx1.escape != 0 then [tx1.escape] else [], Slip.Encode(Remaining(tx1));
    Regrouped(out, code, e);
    if tx.escape != 0 {
      EscapeIsNotRemaining(tx, tx1);
    } else {
      FetchOctet(tx);
      var ch := tx.unsent[0];
      PutSlipIsEncode(ch);
      EscapeIsNotRemaining(tx1, tx.(unsent := tx.unsent[1..], crc := Step(ch, tx.crc)));
      assert Remaining(tx)[0] == ch && Remaining(tx)[1..] == Remaining(tx1);
      assert Slip.Encode(Remaining(tx)) == Slip.EncodeOctet(ch) + Slip.Encode(Remaining(tx1));
    }
  }

  lemma CountedOff(tx: Tx)
    requires tx.escape == 0 && tx.size == |tx.unsent| + 1 && (tx.next.Some? ==> tx.next.value != [])
    ensures var tx2 := tx.(size := tx.size - 1);
            && (tx2.size != 0 ==> Sending(tx2) && ToSend(tx2) == ToSend(tx))
            && (tx2.size == 0 ==>
                  var (tx3, ended) := EndOfBlock(tx2);
                  if ended then ToSend(tx) == [Slip.FRAME] && tx3.size == 0 && tx3.escape == 0
                  else Sending(tx3) && ToSend(tx3) == ToSend(tx))
  {
    hide CrcBlock, Remaining, EndOfBlock;
    var tx2 := tx.(size := tx.size - 1);
    EscapeIsNotRemaining(tx, tx2);
    if tx2.size == 0 {
      BlockEnds(tx2);
    }
  }

  /** Every call puts out one octet more of what there is to send, and the last one also the closing FRAME. */
  lemma AdvanceSends(tx: Tx)
    requires Sending(tx)
    ensures ValidTx(tx)
    ensures var (tx', out, ended) := Advance(tx);
            && ToSend(tx) == [out] + (if ended then [Slip.FRAME] else ToSend(tx'))
            && (if ended then tx'.size == 0 && tx'.escape == 0 else Sending(tx'))
  {
    hide SendOctet, EndOfBlock, Sending, ToSend;
    SendingIsValid(tx);
    OctetGoesOut(tx);
    var tx1 := SendOctet(tx).0;
    if tx1.escape == 0 {
      SendingNext(tx);
      CountedOff(tx1);
    }
  }

  lemma SendingIsValid(tx: Tx)
    requires Sending(tx)
    ensures ValidTx(tx) && tx.size != 0
  {
  }

  lemma SendingNext(tx: Tx)
    requires Sending(tx)
    ensures tx.next.Some? ==> tx.next.value != []
  {
  }

  lemma CrcBlockIsCrcOctets(message: seq<Octet>)
    ensures CrcBlock(Crc.Crc(message, PRESET)) == CrcOctets(message)
  {
    hide Reverse, HighOctet, LowOctet;
  }

  lemma SetupRemaining(tx: Tx, f: Frame, block: Option<seq<Octet>>)
    requires tx.escape == 0
    requires block == (if f.payload != [] then Some(f.payload) else None)
    ensures Remaining(Setup(tx, EncodeHeader(HeaderOf(f)), block)) == Body(f)
  {
    hide EncodeHeader, HeaderOf, CrcBlock, CrcOctets;
    var tx' := Setup(tx, EncodeHeader(HeaderOf(f)), block);
    assert tx'.unsent + (if tx'.next.Some? then tx'.next.value else []) == Message(f);
    CrcBlockIsCrcOctets(Message(f));
  }

  lemma WireIsToSend(tx: Tx, f: Frame)
    requires tx.escape == 0 && Remaining(tx) == Body(f)
    ensures Wire(f) == [Slip.FRAME] + ToSend(tx)
  {
    hide Remaining, Body, Slip.Encode;
    var e := Slip.Encode(Body(f));
    assert ToSend(tx) == e + [Slip.FRAME];
    assert ([Slip.FRAME] + e) + [Slip.FRAME] == [Slip.FRAME] + (e + [Slip.FRAME]);
  }

  /** A started frame has all of its body to send. */
  lemma SetupSends(tx: Tx, f: Frame, block: Option<seq<Octet>>)
    requires tx.escape == 0
    requires block == (if f.payload != [] then Some(f.payload) else None)
    ensures var tx' := Setup(tx, EncodeHeader(HeaderOf(f)), block);
            Sending(tx') && tx'.escape == 0 && Wire(f) == [Slip.FRAME] + ToSend(tx')
  {
    hide EncodeHeader, HeaderOf, Remaining, ToSend, Wire, Body;
    SetupRemaining(tx, f, block);
    WireIsToSend(Setup(tx, EncodeHeader(HeaderOf(f)), block), f);
  }

  // ---------- runs of polls ----------

  /** The engine and the octets waiting in its UART. */
  datatype Line = Line(state: State, pending: seq<Slip.Reading>)

  /** The line after a poll, when some more octets have arrived before it. */
  function PollLine(l: Line, arrived: seq<Slip.Reading>): Line
    requires ValidState(l.state)
  {
    var p := Poll(l.state, l.pending + arrived);
    Line(p.state, p.rest)
  }

  function PollOutput(l: Line, arrived: seq<Slip.Reading>): seq<Octet>
    requires ValidState(l.state)
  {
    Poll(l.state, l.pending + arrived).output
  }

  datatype Outcome = Outcome(line: Line, output: seq<Octet>)

  /** One poll for each element of arrivals. */
  function Polls(l: Line, arrivals: seq<seq<Slip.Reading>>): (o: Outcome)
    requires ValidState(l.state)
    ensures ValidState(o.line.state)
    decreases arrivals
  {
    if arrivals == [] then Outcome(l, [])
    else
      PollIsValid(l.state, l.pending + arrivals[0]);
      var o := Polls(PollLine(l, arrivals[0]), arrivals[1..]);
      Outcome(o.line, PollOutput(l, arrivals[0]) + o.output)
  }

  /** Nothing that is received during these polls makes the engine abandon the frame it is sending. */
  predicate Undisturbed(l: Line, arrivals: seq<seq<Slip.Reading>>)
    requires ValidState(l.state)
    decreases arrivals
  {
    arrivals != [] ==>
      && Poll(l.state, l.pending + arrivals[0]).state.tx == TransmitIfDue(l.state).state.tx
      && (PollIsValid(l.state, l.pending + arrivals[0]); Undisturbed(PollLine(l, arrivals[0]), arrivals[1..]))
  }

  lemma PollIsValid(s: State, input: seq<Slip.Reading>)
    requires ValidState(s)
    ensures ValidState(Poll(s, input).state)
  {
    hide Transmit, Receive, ValidTx, ValidRx;
    TransmitIsValid(s);
    var t := TransmitIfDue(s);
    if !t.early {
      ReceiveIsValid(t.state, input);
    }
  }

  lemma {:induction false} ReceiveIsValid(s: State, input: seq<Slip.Reading>)
    requires ValidState(s)
    ensures var r := Receive(s, input);
            ValidState(r.state) && r.state.delay <= s.delay
    decreases input
  {
    hide ReceiveOctet, ValidState;
    if s.rx.buffer.Some? && input != [] {
      ReceiveOctetIsValid(s, input[0]);
      ReceiveIsValid(ReceiveOctet(s, input[0]).state, input[1..]);
    }
  }

  lemma FirstPoll(l: Line, arrivals: seq<seq<Slip.Reading>>)
    requires ValidState(l.state) && arrivals != []
    ensures ValidState(PollLine(l, arrivals[0]).state)
    ensures var o := Polls(PollLine(l, arrivals[0]), arrivals[1..]);
            Polls(l, arrivals) == Outcome(o.line, PollOutput(l, arrivals[0]) + o.output)
  {
    hide Poll, ValidState;
    PollIsValid(l.state, l.pending + arrivals[0]);
  }

  lemma NoPoll(l: Line)
    requires ValidState(l.state)
    ensures Polls(l, []) == Outcome(l, [])
  {
  }

  lemma {:induction false} PollsConcat(l: Line, a: seq<seq<Slip.Reading>>, b: seq<seq<Slip.Reading>>)
    requires ValidState(l.state)
    ensures var o := Polls(l, a);
            Polls(l, a + b) == Outcome(Polls(o.line, b).line, o.output + Polls(o.line, b).output)
    decreases a
  {
    hide Polls, PollLine, PollOutput, ValidState;
    if a == [] {
      NoPoll(l);
      assert a + b == b;
      assert [] + Polls(l, b).output == Polls(l, b).output;
    } else {
      FirstPoll(l, a);
      FirstPoll(l, a + b);
      var l1 := PollLine(l, a[0]);
      assert (a + b)[0] == a[0] && (a + b)[1..] == a[1..] + b;
      PollsConcat(l1, a[1..], b);
      var x, y, z := PollOutput(l, a[0]), Polls(l1, a[1..]).output, Polls(Polls(l1, a[1..]).line, b).output;
      assert x + (y + z) == (x + y) + z;
    }
  }

  /** If it is the pending packet that is to be sent, it has a payload. */
  predicate PayloadIfData(l: Link) {
    l.pkt == NONE && l.resp != RESPOND_CONF && l.out.Some? ==> l.out.value.payload != []
  }

  /** A frame comes next: nothing is being sent and no delay is running; and a data frame has a payload. */
  predicate Next(s: State, f: Frame) {
    && ValidState(s) && s.delay == 0 && s.tx.size == 0
    && NextFrame(s.link).frame == Some(f) && PayloadIfData(s.link)
  }

  /** And no escape code is left over from an abandoned frame. */
  predicate Due(s: State, f: Frame) {
    Next(s, f) && s.tx.escape == 0
  }

  function BlockOf(f: Frame): Option<seq<Octet>> {
    if f.payload != [] then Some(f.payload) else None
  }

  lemma SecondBlockIsPayload(l: Link, f: Frame)
    requires NextFrame(l).frame == Some(f) && PayloadIfData(l)
    ensures SecondBlock(l, f) == BlockOf(f)
  {
    if l.pkt != NONE {
      WhichLeOctets(l.pkt);
    }
    WhichLeOctets(CONF_RESP);
  }

  lemma PollStarts(l: Line, arrived: seq<Slip.Reading>, f: Frame)
    requires Next(l.state, f)
    requires Poll(l.state, l.pending + arrived).state.tx == TransmitIfDue(l.state).state.tx
    ensures PollOutput(l, arrived) == [Slip.FRAME]
    ensures var s := PollLine(l, arrived).state;
            ValidState(s) && s.delay == 0 && s.tx == Setup(l.state.tx, EncodeHeader(HeaderOf(f)), BlockOf(f))
  {
    hide NextFrame, SecondBlock, Setup, EncodeHeader, HeaderOf, Receive, ValidRx, BlockOf;
    PollIsValid(l.state, l.pending + arrived);
    SecondBlockIsPayload(l.state.link, f);
    TransmitIsValid(l.state);
    ReceiveIsValid(TransmitIfDue(l.state).state, l.pending + arrived);
  }

  lemma PollContinues(l: Line, arrived: seq<Slip.Reading>)
    requires ValidState(l.state) && l.state.delay == 0 && Sending(l.state.tx)
    requires Poll(l.state, l.pending + arrived).state.tx == TransmitIfDue(l.state).state.tx
    ensures var s := PollLine(l, arrived).state;
            && ValidState(s)
            && ToSend(l.state.tx) == PollOutput(l, arrived) + (if s.tx.size == 0 then [] else ToSend(s.tx))
            && (if s.tx.size == 0 then s.tx.escape == 0 && s.delay == POLL_DELAY && |PollOutput(l, arrived)| == 2
                else Sending(s.tx) && s.delay == 0 && |PollOutput(l, arrived)| == 1)
  {
    hide Advance, Receive, ValidRx, Sending, ToSend, FinishFrame, ValidTx;
    PollIsValid(l.state, l.pending + arrived);
    SendingIsValid(l.state.tx);
    AdvanceSends(l.state.tx);
    TransmitIsValid(l.state);
    ReceiveIsValid(TransmitIfDue(l.state).state, l.pending + arrived);
    if !Advance(l.state.tx).2 {
      SendingIsValid(Advance(l.state.tx).0);
    }
  }

  /** The rest of a frame goes out one octet a poll, and the closing FRAME with the last octet. */
  lemma {:induction false} RestGoesOut(l: Line, arrivals: seq<seq<Slip.Reading>>)
    requires ValidState(l.state) && l.state.delay == 0 && Sending(l.state.tx)
    requires |arrivals| + 1 == |ToSend(l.state.tx)| && Undisturbed(l, arrivals)
    ensures var o := Polls(l, arrivals);
            o.output == ToSend(l.state.tx) &&
            o.line.state.tx.size == 0 && o.line.state.tx.escape == 0 && o.line.state.delay == POLL_DELAY
    decreases arrivals
  {
    hide Poll, Sending, ToSend, ValidState, PollOutput;
    if arrivals == [] {
      SomethingToSend(l.state.tx);
    } else {
      PollContinues(l, arrivals[0]);
      var l1 := PollLine(l, arrivals[0]);
      if l1.state.tx.size == 0 {
        assert arrivals[1..] == [];
        assert Polls(l1, []) == Outcome(l1, []);
      } else {
        RestGoesOut(l1, arrivals[1..]);
      }
    }
  }

  lemma SomethingToSend(tx: Tx)
    requires Sending(tx)
    ensures |ToSend(tx)| >= 2
  {
    AdvanceSends(tx);
    if !Advance(tx).2 {
      assert |ToSend(Advance(tx).0)| >= 1;
    }
  }

  /** A frame that is due goes out in full: in 1 + |encoding| undisturbed polls, whatever is received meanwhile,
      the line sees a FRAME octet, the stuffed header, payload and CRC, and a FRAME octet, and nothing else. */
  lemma FrameGoesOut(l: Line, arrivals: seq<seq<Slip.Reading>>, f: Frame)
    requires Due(l.state, f)
    requires |arrivals| == 1 + |Slip.Encode(Body(f))| && Undisturbed(l, arrivals)
    ensures var o := Polls(l, arrivals);
            && o.output == Wire(f)
            && o.line.state.tx.size == 0 && o.line.state.tx.escape == 0 && o.line.state.delay == POLL_DELAY
  {
    hide Poll, Sending, ToSend, ValidState, NextFrame, Body, Slip.Encode, Setup, EncodeHeader, HeaderOf;
    PollIsValid(l.state, l.pending + arrivals[0]);
    PollStarts(l, arrivals[0], f);
    SetupSends(l.state.tx, f, BlockOf(f));
    RestGoesOut(PollLine(l, arrivals[0]), arrivals[1..]);
  }

  /** What goes out instead when the escape code of an abandoned frame is still pending: the code takes the place
      of the last header octet, and the CRC is that of the octets sent. */
  function SpoiledWire(escape: Octet, f: Frame): seq<Octet> {
    var message := EncodeHeader(HeaderOf(f))[..3] + f.payload;
    [Slip.FRAME, escape] + Slip.Encode(message + CrcOctets(message)) + [Slip.FRAME]
  }

  /** The two codes that can be left over. */
  predicate EscapeCode(e: Octet) {
    e == Slip.ESCAPE_FRAME || e == Slip.ESCAPE_ESCAPE
  }

  predicate NoneOrCode(e: Octet) {
    e == 0 || EscapeCode(e)
  }

  lemma AdvanceKeepsCode(tx: Tx)
    requires ValidTx(tx) && tx.size != 0 && NoneOrCode(tx.escape)
    ensures NoneOrCode(Advance(tx).0.escape)
  {
    hide Step, CrcBlock, Reverse;
  }

  /** Whatever is sent, what can be left over is one of the two codes. */
  lemma TransmitKeepsCode(s: State)
    requires ValidState(s) && NoneOrCode(s.tx.escape)
    ensures NoneOrCode(TransmitIfDue(s).state.tx.escape)
  {
    hide Advance, EncodeHeader, HeaderOf, NextFrame, FinishFrame, ValidRx;
    if s.tx.size != 0 {
      AdvanceKeepsCode(s.tx);
    }
  }

  lemma CodeRepeats(e: Octet)
    requires EscapeCode(e)
    ensures Sum(e, e, e, e) != 0xff
  {
  }

  /** A spoiled frame is never the frame that was meant: it would take four times the escape code for a header, and
      that has no valid checksum. */
  lemma SpoiledIsDifferent(e: Octet, f: Frame)
    requires EscapeCode(e)
    ensures SpoiledWire(e, f) != Wire(f)
  {
    hide EncodeHeader, HeaderOf, CrcOctets, Slip.Encode, DecodeHeader, Sum;
    var header := EncodeHeader(HeaderOf(f));
    var spoiled := header[..3] + f.payload + CrcOctets(header[..3] + f.payload);
    if SpoiledWire(e, f) == Wire(f) {
      var a, b := [e] + Slip.Encode(spoiled), Slip.Encode(Body(f));
      assert SpoiledWire(e, f) == [Slip.FRAME] + a + [Slip.FRAME] == [Slip.FRAME] + b + [Slip.FRAME];
      assert a == b by { SameInside(a, b); }
      assert Slip.Encode([e] + spoiled) == a by { EncodeCode(e, spoiled); }
      Slip.EncodeInjective([e] + spoiled, Body(f));
      assert header[0] == e && header[1] == header[0] && header[2] == header[1] && header[3] == header[2] by {
        assert ([e] + spoiled)[0] == Body(f)[0] && ([e] + spoiled)[1] == Body(f)[1];
        assert ([e] + spoiled)[2] == Body(f)[2] && ([e] + spoiled)[3] == Body(f)[3];
      }
      CodeRepeats(e);
      HeaderChecksum(HeaderOf(f));
    }
  }

  lemma SameInside(a: seq<Octet>, b: seq<Octet>)
    requires [Slip.FRAME] + a + [Slip.FRAME] == [Slip.FRAME] + b + [Slip.FRAME]
    ensures a == b
  {
    var x, y := [Slip.FRAME] + a + [Slip.FRAME], [Slip.FRAME] + b + [Slip.FRAME];
    assert |x| == |y|;
    assert a == x[1..|x| - 1] && b == y[1..|y| - 1];
  }

  lemma EncodeCode(e: Octet, s: seq<Octet>)
    requires EscapeCode(e)
    ensures Slip.Encode([e] + s) == [e] + Slip.Encode(s)
  {
    assert ([e] + s)[1..] == s;
  }

  lemma HeaderChecksum(h: Header)
    ensures ChecksumHolds(EncodeHeader(h))
  {
    hide ControlOctet, ChannelOctet, LengthOctet, Checksum, Sum;
    var s := EncodeHeader(h);
    ChecksumCompletes(s[0], s[1], s[2], s[3]);
  }

  /** The octets of a spoiled frame before stuffing: the escape code counts as one of them. */
  function SpoiledBody(e: Octet, f: Frame): seq<Octet> {
    var message := EncodeHeader(HeaderOf(f))[..3] + f.payload;
    [e] + (message + CrcOctets(message))
  }

  lemma SpoiledIsEncoded(e: Octet, f: Frame)
    requires EscapeCode(e)
    ensures SpoiledWire(e, f) == [Slip.FRAME] + Slip.Encode(SpoiledBody(e, f)) + [Slip.FRAME]
    ensures |SpoiledBody(e, f)| == |f.payload| + 6
    ensures var header := EncodeHeader(HeaderOf(f));
            && SpoiledBody(e, f)[..4] == [e] + header[..3]
            && SpoiledBody(e, f)[4..] == f.payload + CrcOctets(header[..3] + f.payload)
  {
    hide EncodeHeader, HeaderOf, CrcOctets, Slip.Encode;
    var message := EncodeHeader(HeaderOf(f))[..3] + f.payload;
    EncodeCode(e, message + CrcOctets(message));
    var inner := Slip.Encode(message + CrcOctets(message));
    assert [Slip.FRAME, e] + inner + [Slip.FRAME] == [Slip.FRAME] + ([e] + inner) + [Slip.FRAME];
  }

  lemma CodeMovesCrc(e: Octet)
    requires EscapeCode(e)
    ensures Step(e, PRESET) != PRESET && CrcField(e)
  {
  }

  /** A receiver with room for it never takes a spoiled frame for a frame: the code announces a CRC, the length can only
      be that of the payload, and the CRC that was sent lacks the code, which never leaves the register as it was. */
  lemma SpoiledIsRefused(e: Octet, f: Frame)
    requires EscapeCode(e)
    ensures var header := EncodeHeader(HeaderOf(f));
            !Intact([e] + header[..3], f.payload + CrcOctets(header[..3] + f.payload))
  {
    hide EncodeHeader, HeaderOf, CrcOctets, Crc.Crc, Step, Feed, CrcField, LengthField, ChecksumHolds;
    var header := EncodeHeader(HeaderOf(f));
    var h, message := [e] + header[..3], header[..3] + f.payload;
    var stored := f.payload + CrcOctets(message);
    CodeMovesCrc(e);
    if Intact(h, stored) {
      assert stored[..|f.payload|] == f.payload && stored[|f.payload|..] == CrcOctets(message);
      assert h + f.payload == [e] + message;
      CrcOctetsInjective([e] + message, message);
      CrcConcat([e], message, PRESET);
      CrcOfOne(e, PRESET);
      CrcIsBitSerial(message, Step(e, PRESET));
      CrcIsBitSerial(message, PRESET);
      FeedInjective(Step(e, PRESET), PRESET, BitsOf(message));
    }
  }

  /** A receiver refuses it at the header, unless the escape code happens to be the very octet it displaced. */
  lemma SpoiledHeader(e: Octet, f: Frame)
    ensures var header := EncodeHeader(HeaderOf(f));
            ChecksumHolds([e] + header[..3]) <==> e == header[3]
  {
    hide ControlOctet, ChannelOctet, LengthOctet, HeaderOf, Sum, Checksum;
    var h := EncodeHeader(HeaderOf(f));
    ChecksumCompletes(e, h[0], h[1], h[2]);
    assert ([e] + h[..3])[1] == h[0] && ([e] + h[..3])[2] == h[1] && ([e] + h[..3])[3] == h[2];
  }

  lemma SpoiledRemaining(tx: Tx, f: Frame)
    requires tx.escape != 0
    ensures var message := EncodeHeader(HeaderOf(f))[..3] + f.payload;
            Remaining(Setup(tx, EncodeHeader(HeaderOf(f)), BlockOf(f))) == message + CrcOctets(message)
  {
    hide EncodeHeader, HeaderOf, CrcBlock, CrcOctets;
    var tx' := Setup(tx, EncodeHeader(HeaderOf(f)), BlockOf(f));
    var message := EncodeHeader(HeaderOf(f))[..3] + f.payload;
    assert tx'.unsent + (if tx'.next.Some? then tx'.next.value else []) == message;
    CrcBlockIsCrcOctets(message);
  }

  lemma SetupSpoils(tx: Tx, f: Frame)
    requires tx.escape != 0
    ensures var tx' := Setup(tx, EncodeHeader(HeaderOf(f)), BlockOf(f));
            Sending(tx') && [Slip.FRAME] + ToSend(tx') == SpoiledWire(tx.escape, f)
  {
    hide EncodeHeader, HeaderOf, CrcOctets, Slip.Encode, Remaining;
    SpoiledRemaining(tx, f);
    var message := EncodeHeader(HeaderOf(f))[..3] + f.payload;
    var e := Slip.Encode(message + CrcOctets(message));
    var tail := [tx.escape] + e + [Slip.FRAME];
    assert ToSend(Setup(tx, EncodeHeader(HeaderOf(f)), BlockOf(f))) == tail;
    assert [Slip.FRAME] + tail == [Slip.FRAME, tx.escape] + e + [Slip.FRAME];
  }

  /** A frame started while an escape code is pending, which a host causes by submitting a packet or by
      reinitializing in the middle of an escape sequence, goes out spoiled; the frame after it does not. */
  lemma SpoiledFrameGoesOut(l: Line, arrivals: seq<seq<Slip.Reading>>, f: Frame)
    requires Next(l.state, f) && l.state.tx.escape != 0
    requires |arrivals| + 1 == |SpoiledWire(l.state.tx.escape, f)| && Undisturbed(l, arrivals)
    ensures var o := Polls(l, arrivals);
            && o.output == SpoiledWire(l.state.tx.escape, f)
            && o.line.state.tx.size == 0 && o.line.state.tx.escape == 0 && o.line.state.delay == POLL_DELAY
  {
    hide Poll, Sending, ToSend, ValidState, NextFrame, Slip.Encode, Setup, EncodeHeader, HeaderOf, CrcOctets;
    PollIsValid(l.state, l.pending + arrivals[0]);
    PollStarts(l, arrivals[0], f);
    SetupSpoils(l.state.tx, f);
    RestGoesOut(PollLine(l, arrivals[0]), arrivals[1..]);
  }

  /** What is put on the line for a frame. */
  function WireWith(escape: Octet, f: Frame): seq<Octet> {
    if escape == 0 then Wire(f) else SpoiledWire(escape, f)
  }

  /** So a frame goes out as it should if and only if no escape code is left over when it is started. */
  lemma ProperWithoutCode(l: Line, arrivals: seq<seq<Slip.Reading>>, f: Frame)
    requires Next(l.state, f) && NoneOrCode(l.state.tx.escape)
    requires |arrivals| + 1 == |WireWith(l.state.tx.escape, f)| && Undisturbed(l, arrivals)
    ensures Polls(l, arrivals).output == Wire(f) <==> l.state.tx.escape == 0
  {
    hide Polls, Next, Undisturbed, Wire, SpoiledWire, EscapeCode;
    if l.state.tx.escape == 0 {
      WireLength(f);
      FrameGoesOut(l, arrivals, f);
    } else {
      SpoiledFrameGoesOut(l, arrivals, f);
      SpoiledIsDifferent(l.state.tx.escape, f);
    }
  }

  // ---------- retransmission ----------

  /** n polls before which nothing arrives. */
  function Silence(n: nat): (a: seq<seq<Slip.Reading>>)
    ensures |a| == n
  {
    if n == 0 then [] else [[]] + Silence(n - 1)
  }

  lemma {:induction false} SilenceConcat(m: nat, n: nat)
    ensures Silence(m + n) == Silence(m) + Silence(n)
  {
    if m != 0 {
      SilenceConcat(m - 1, n);
    }
  }

  /** With nothing to read, a poll only transmits and counts down. */
  lemma SilentPoll(l: Line)
    requires ValidState(l.state) && l.pending == []
    ensures var t, p := TransmitIfDue(l.state), PollLine(l, []);
            && p.pending == [] && PollOutput(l, []) == t.output
            && p.state.link == t.state.link && p.state.tx == t.state.tx && p.state.rx == l.state.rx
            && (!t.early ==> p.state.delay == (if l.state.delay > 0 then l.state.delay - 1 else t.delay))
  {
    hide Transmit, ValidTx, ValidRx;
    TransmitIsValid(l.state);
    assert l.pending + [] == [];
    assert Receive(TransmitIfDue(l.state).state, []) == Reading(TransmitIfDue(l.state).state, [], QUIET, None, []);
  }

  lemma {:induction false} SilentRest(l: Line)
    requires ValidState(l.state) && l.pending == [] && l.state.delay == 0 && Sending(l.state.tx)
    requires l.state.link.out.Some? && l.state.link.out.value.reliable
    ensures var n := |ToSend(l.state.tx)| - 1;
            && n >= 0 && Undisturbed(l, Silence(n))
            && Polls(l, Silence(n)).line.state.link == l.state.link
            && Polls(l, Silence(n)).line.state.rx == l.state.rx
            && Polls(l, Silence(n)).line.pending == []
    decreases |ToSend(l.state.tx)|
  {
    hide Poll, Sending, ToSend, ValidState, PollOutput, Advance;
    SomethingToSend(l.state.tx);
    SilentPoll(l);
    SendingIsValid(l.state.tx);
    var p := PollLine(l, []);
    assert l.pending + [] == [];
    PollContinues(l, []);
    var n := |ToSend(l.state.tx)| - 1;
    assert Silence(n)[1..] == Silence(n - 1);
    if p.state.tx.size == 0 {
      assert Silence(0) == [];
    } else {
      SilentRest(p);
    }
  }

  lemma {:induction false} SilentCountdown(l: Line)
    requires ValidState(l.state) && l.pending == []
    ensures Polls(l, Silence(l.state.delay)) == Outcome(Line(l.state.(delay := 0), []), [])
    decreases l.state.delay
  {
    hide Poll, ValidTx, ValidRx;
    if l.state.delay != 0 {
      SilentPoll(l);
      var p := PollLine(l, []);
      assert p == Line(l.state.(delay := l.state.delay - 1), []);
      SilentCountdown(p);
      assert Silence(l.state.delay)[1..] == Silence(l.state.delay - 1);
    }
  }

  /** A reliable packet waits for its acknowledgement and nothing else is to be sent. */
  predicate Waiting(l: Line) {
    && l.pending == [] && ValidState(l.state)
    && l.state.delay == 0 && l.state.tx.size == 0 && l.state.tx.escape == 0
    && l.state.link.pkt == NONE && l.state.link.resp != RESPOND_CONF
    && l.state.link.out.Some? && l.state.link.out.value.reliable && l.state.link.out.value.payload != []
  }

  function PendingFrame(l: Link): Frame
    requires l.out.Some?
  {
    DataFrame(l, l.out.value)
  }

  /** The number of polls from one transmission of a frame to the next. */
  function Period(f: Frame): nat {
    1 + |Slip.Encode(Body(f))| + POLL_DELAY
  }

  lemma FirstPollOfFrame(l: Line)
    requires Waiting(l)
    ensures var f := PendingFrame(l.state.link);
            var l1 := PollLine(l, []);
            && Due(l.state, f) && ValidState(l1.state) && Sending(l1.state.tx)
            && l1.state.delay == 0 && l1.pending == []
            && |ToSend(l1.state.tx)| == |Slip.Encode(Body(f))| + 1
            && l1.state.link == l.state.link.(sendAck := false) && l1.state.rx == l.state.rx
            && Poll(l.state, l.pending + []).state.tx == TransmitIfDue(l.state).state.tx
  {
    hide Poll, Sending, ToSend, Wire, Body, PollOutput, TransmitIfDue, ValidTx, ValidRx;
    hide Setup, EncodeHeader, HeaderOf;
    var f := PendingFrame(l.state.link);
    assert Due(l.state, f);
    TransmitsPending(l.state, f);
    SilentPoll(l);
    assert l.pending + [] == [];
    PollIsValid(l.state, []);
    PollStarts(l, [], f);
    SetupSends(l.state.tx, f, BlockOf(f));
    WireLength(f);
  }

  lemma OneFrame(l: Line)
    requires Waiting(l)
    ensures var f := PendingFrame(l.state.link);
            var o := Polls(l, Silence(1 + |Slip.Encode(Body(f))|));
            && o.output == Wire(f)
            && o.line.pending == [] && o.line.state.tx.size == 0 && o.line.state.tx.escape == 0
            && o.line.state.delay == POLL_DELAY
            && o.line.state.link == l.state.link.(sendAck := false) && o.line.state.rx == l.state.rx
  {
    hide Poll, Sending, ToSend, Wire, Body, PollOutput, TransmitIfDue, ValidState, Due;
    var f := PendingFrame(l.state.link);
    var n := |Slip.Encode(Body(f))|;
    FirstPollOfFrame(l);
    SilentRest(PollLine(l, []));
    assert Silence(1 + n)[0] == [] && Silence(1 + n)[1..] == Silence(n);
    FrameGoesOut(l, Silence(1 + n), f);
  }

  lemma OnePeriod(l: Line)
    requires Waiting(l)
    ensures var f := PendingFrame(l.state.link);
            var o := Polls(l, Silence(Period(f)));
            && o.output == Wire(f)
            && Waiting(o.line) && o.line.state.link == l.state.link.(sendAck := false) && o.line.state.rx == l.state.rx
  {
    hide Polls, Wire, Body, ValidState;
    var f := PendingFrame(l.state.link);
    var n := 1 + |Slip.Encode(Body(f))|;
    OneFrame(l);
    var l1 := PolledLine(l, Silence(n));
    SilentCountdown(l1);
    SilenceConcat(n, POLL_DELAY);
    PollsConcat(l, Silence(n), Silence(POLL_DELAY));
    assert Wire(f) + [] == Wire(f);
    var l2 := PolledLine(l1, Silence(POLL_DELAY));
  }

  function PolledLine(l: Line, arrivals: seq<seq<Slip.Reading>>): (m: Line)
    requires ValidState(l.state)
    ensures ValidState(m.state) && m == Polls(l, arrivals).line
  {
    Polls(l, arrivals).line
  }

  lemma WireLength(f: Frame)
    ensures |Wire(f)| == |Slip.Encode(Body(f))| + 2
  {
  }

  lemma TransmitsPending(s: State, f: Frame)
    requires Due(s, f) && s.link.pkt == NONE && s.link.resp != RESPOND_CONF && s.link.out.Some?
    ensures TransmitIfDue(s).state.link == s.link.(sendAck := false)
  {
    hide Setup, EncodeHeader, HeaderOf, DataFrame;
  }

  function Repeat(s: seq<Octet>, k: nat): seq<Octet> {
    if k == 0 then [] else s + Repeat(s, k - 1)
  }

  /** As long as nothing is received, the pending frame goes out again and again, unchanged and exactly every
      1 + |encoding| + 25 polls, with nothing in between. */
  lemma {:induction false} RetransmissionPeriod(l: Line, k: nat, n: nat)
    requires Waiting(l)
    requires n == k * Period(PendingFrame(l.state.link))
    ensures Polls(l, Silence(n)).output == Repeat(Wire(PendingFrame(l.state.link)), k)
    decreases k
  {
    hide Polls, Wire, Period, ValidState;
    var f := PendingFrame(l.state.link);
    if k == 0 {
      NoPolls(l);
    } else {
      var p := Period(f);
      OnePeriod(l);
      assert n - p == (k - 1) * p;
      assert (k - 1) * p >= 0;
      RetransmissionPeriod(PolledLine(l, Silence(p)), k - 1, n - p);
      SilenceConcat(p, n - p);
      PollsConcat(l, Silence(p), Silence(n - p));
    }
  }

  lemma NoPolls(l: Line)
    requires Waiting(l)
    ensures ValidState(l.state) && Polls(l, Silence(0)).output == []
  {
  }

  // ---------- escape codes come up ----------

  lemma EscapeOut(tx: Tx)
    requires Sending(tx) && tx.escape == 0
    ensures ValidTx(tx)
    ensures var (tx', out, ended) := Advance(tx);
            out == Slip.ESCAPE ==> EscapeCode(tx'.escape) && tx'.size != 0 && !ended
    ensures Advance(tx).1 != Slip.ESCAPE ==> Advance(tx).0.escape == 0
  {
    hide Step, CrcBlock, Reverse;
  }

  /** If an ESCAPE octet is still to come, then after some silent polls it is the next octet to go out. */
  lemma {:induction false} EscapeAhead(l: Line) returns (n: nat)
    requires ValidState(l.state) && l.pending == [] && l.state.delay == 0
    requires Sending(l.state.tx) && l.state.tx.escape == 0 && Slip.ESCAPE in ToSend(l.state.tx)
    ensures var m := Polls(l, Silence(n)).line;
            && m.pending == [] && m.state.delay == 0 && m.state.link == l.state.link && m.state.rx == l.state.rx
            && ValidState(m.state) && Sending(m.state.tx) && m.state.tx.escape == 0 && m.state.tx.size != 0
            && Advance(m.state.tx).1 == Slip.ESCAPE
    decreases |ToSend(l.state.tx)|
  {
    hide Poll, Sending, ToSend, ValidTx, ValidRx, PollOutput, Advance, EscapeCode;
    var tx := l.state.tx;
    EscapeOut(tx);
    EndOrMore(tx);
    AdvanceSends(tx);
    if Advance(tx).1 == Slip.ESCAPE {
      n := 0;
      NoPoll(l);
    } else {
      SilentPoll(l);
      assert l.pending + [] == [];
      PollIsValid(l.state, []);
      assert !Advance(tx).2;
      var rest := EscapeAhead(PollLine(l, []));
      n := rest + 1;
      assert Silence(n)[0] == [] && Silence(n)[1..] == Silence(rest);
    }
  }

  /** And one poll later the second half of an escape sequence is. */
  lemma EscapeInRest(l: Line) returns (n: nat)
    requires ValidState(l.state) && l.pending == [] && l.state.delay == 0
    requires Sending(l.state.tx) && l.state.tx.escape == 0 && Slip.ESCAPE in ToSend(l.state.tx)
    ensures var m := Polls(l, Silence(n)).line;
            && EscapeCode(m.state.tx.escape) && m.state.tx.size != 0
            && m.pending == [] && m.state.delay == 0 && m.state.link == l.state.link
  {
    hide Poll, Sending, ToSend, ValidTx, ValidRx, PollOutput, Advance, EscapeCode, Polls;
    var before := EscapeAhead(l);
    n := before + 1;
    SilenceConcat(before, 1);
    PollsConcat(l, Silence(before), Silence(1));
    var m := Polls(l, Silence(before)).line;
    EscapeOut(m.state.tx);
    SilentPoll(m);
    PollIsValid(m.state, []);
    assert m.pending + [] == [];
    FirstPoll(m, Silence(1));
    NoPoll(PollLine(m, []));
    assert Silence(1)[0] == [] && Silence(1)[1..] == [];
  }

  lemma {:induction false} EscapeInEncoding(s: seq<Octet>)
    requires Slip.FRAME in s || Slip.ESCAPE in s
    ensures Slip.ESCAPE in Slip.Encode(s)
  {
    if s[0] == Slip.FRAME || s[0] == Slip.ESCAPE {
      assert Slip.Encode(s)[0] == Slip.ESCAPE;
    } else {
      EscapeInEncoding(s[1..]);
    }
  }

  /** So whenever a frame with a FRAME or an ESCAPE octet in its body is due, there is a number of polls after which
      the engine is in the middle of an escape sequence, and a packet submitted then finds the code left over. */
  lemma EscapeComesUp(l: Line, f: Frame, p: Packet) returns (n: nat)
    requires Due(l.state, f) && l.pending == [] && p.payload != []
    requires Slip.FRAME in Body(f) || Slip.ESCAPE in Body(f)
    ensures var m := Polls(l, Silence(n)).line;
            var s := SendPacket(m.state, p);
            && m.pending == [] && NextFrame(s.link).frame.Some? && Next(s, NextFrame(s.link).frame.value)
            && EscapeCode(s.tx.escape)
  {
    hide Poll, Sending, ToSend, Wire, Body, PollOutput, ValidTx, ValidRx, Setup, EncodeHeader, HeaderOf, Slip.Encode;
    SilentPoll(l);
    assert l.pending + [] == [];
    PollIsValid(l.state, []);
    SilentTx(l.state);
    PollStarts(l, [], f);
    SetupSends(l.state.tx, f, BlockOf(f));
    EscapeInEncoding(Body(f));
    var l1 := PollLine(l, []);
    EscapeOnWire(l1.state.tx, f);
    var rest := EscapeInRest(l1);
    n := rest + 1;
    assert Silence(n)[0] == [] && Silence(n)[1..] == Silence(rest);
    SubmittedIsNext(Polls(l1, Silence(rest)).line.state, p);
  }

  lemma SubmittedIsNext(s: State, p: Packet)
    requires ValidState(s) && s.delay == 0 && p.payload != []
    ensures var s' := SendPacket(s, p);
            NextFrame(s'.link).frame.Some? && Next(s', NextFrame(s'.link).frame.value) && s'.tx.escape == s.tx.escape
  {
    hide LeFrame, DataFrame, AckFrame;
  }

  lemma SilentTx(s: State)
    requires ValidState(s)
    ensures Poll(s, []).state.tx == TransmitIfDue(s).state.tx
  {
    hide Transmit, ValidTx, ValidRx;
    TransmitIsValid(s);
  }

  lemma EscapeOnWire(tx: Tx, f: Frame)
    requires Slip.ESCAPE in Slip.Encode(Body(f)) && Wire(f) == [Slip.FRAME] + ToSend(tx)
    ensures Slip.ESCAPE in ToSend(tx)
  {
    hide Slip.Encode, Body, ToSend;
    var e := Slip.Encode(Body(f));
    var i :| 0 <= i < |e| && e[i] == Slip.ESCAPE;
    assert Wire(f)[i + 1] == e[i] && ToSend(tx)[i] == Wire(f)[i + 1];
  }

  // ---------- the frame that is never finished ----------

  /** The transmitter as if the header were all there is. */
  function HeaderOnly(tx: Tx): Tx {
    tx.(next := None, needCrc := false)
  }

  /** An empty second block hides the end of the frame: where a frame without one would be closed, this one is
      just dropped. */
  lemma EmptyBlockAdvance(tx: Tx)
    requires tx.next == Some([]) && Sending(HeaderOnly(tx))
    ensures ValidTx(tx) && ValidTx(HeaderOnly(tx)) && tx.size != 0
    ensures var (tx', out, ended) := Advance(tx);
            var (tx0, out0, ended0) := Advance(HeaderOnly(tx));
            && out == out0 && !ended
            && (if ended0 then tx'.size == 0 && tx'.escape == 0
                else tx'.next == tx.next && HeaderOnly(tx') == tx0)
  {
    hide PutSlip, Step, CrcBlock, Reverse;
  }

  lemma {:induction false} EmptyBlockRest(l: Line)
    requires ValidState(l.state) && l.pending == [] && l.state.delay == 0
    requires l.state.tx.next == Some([]) && Sending(HeaderOnly(l.state.tx))
    ensures var left := ToSend(HeaderOnly(l.state.tx));
            var o := Polls(l, Silence(|left| - 1));
            && |left| >= 2 && o.output == left[..|left| - 1] && left[|left| - 1] == Slip.FRAME
            && o.line.state.tx.size == 0 && o.line.state.tx.escape == 0 && o.line.state.delay == 0
            && o.line.pending == [] && o.line.state.link == l.state.link
    decreases |ToSend(HeaderOnly(l.state.tx))|
  {
    hide Poll, Sending, ToSend, ValidTx, ValidRx, PollOutput, Advance;
    var tx := l.state.tx;
    var left := ToSend(HeaderOnly(tx));
    SomethingToSend(HeaderOnly(tx));
    EmptyBlockAdvance(tx);
    AdvanceSends(HeaderOnly(tx));
    SilentPoll(l);
    assert l.pending + [] == [];
    PollIsValid(l.state, []);
    var p := PollLine(l, []);
    assert Silence(|left| - 1)[0] == [] && Silence(|left| - 1)[1..] == Silence(|left| - 2);
    EndOrMore(HeaderOnly(tx));
    if p.state.tx.size == 0 {
      assert left == [Advance(tx).1] + [Slip.FRAME];
      assert Polls(p, Silence(0)) == Outcome(p, []);
    } else {
      EmptyBlockRest(p);
    }
  }

  lemma EndOrMore(tx: Tx)
    requires Sending(tx)
    ensures ValidTx(tx) && tx.size != 0 && (!Advance(tx).2 ==> Advance(tx).0.size != 0)
  {
    AdvanceSends(tx);
  }

  /** A packet with an empty payload is never sent: over 1 + |encoded header| polls the engine puts an opening FRAME
      and the header on the line, without CRC and without closing FRAME, and is then ready to start the same
      frame again, at once and for ever. */
  lemma EmptyPayloadIsNeverFinished(l: Line)
    requires l.pending == [] && ValidState(l.state)
    requires l.state.delay == 0 && l.state.tx.size == 0 && l.state.tx.escape == 0
    requires l.state.link.pkt == NONE && l.state.link.resp != RESPOND_CONF
    requires l.state.link.out.Some? && l.state.link.out.value.payload == []
    ensures var header := Slip.Encode(EncodeHeader(HeaderOf(PendingFrame(l.state.link))));
            var o := Polls(l, Silence(1 + |header|));
            && o.output == [Slip.FRAME] + header
            && o.line.pending == [] && o.line.state.link == l.state.link.(sendAck := false)
            && o.line.state.delay == 0 && o.line.state.tx.size == 0 && o.line.state.tx.escape == 0
  {
    hide Poll, ToSend, EncodeHeader, HeaderOf, Slip.Encode, ValidTx, ValidRx;
    var f := PendingFrame(l.state.link);
    var header := Slip.Encode(EncodeHeader(HeaderOf(f)));
    SilentPoll(l);
    assert l.pending + [] == [];
    PollIsValid(l.state, []);
    var p := PollLine(l, []);
    HeaderToSend(p.state.tx, EncodeHeader(HeaderOf(f)));
    EmptyBlockRest(p);
    assert Silence(1 + |header|)[0] == [] && Silence(1 + |header|)[1..] == Silence(|header|);
  }

  /** Header after header, for as long as nothing is received. */
  lemma {:induction false} EmptyPayloadForever(l: Line, k: nat, n: nat)
    requires EmptyWaiting(l)
    requires n == k * (1 + |HeaderOnLine(l.state.link)|)
    ensures Polls(l, Silence(n)).output == Repeat([Slip.FRAME] + HeaderOnLine(l.state.link), k)
    decreases k
  {
    hide Polls, HeaderOnLine;
    if k == 0 {
      NoPoll(l);
    } else {
      var p := 1 + |HeaderOnLine(l.state.link)|;
      EmptyPeriod(l);
      assert n - p == (k - 1) * p;
      assert (k - 1) * p >= 0;
      EmptyPayloadForever(PolledLine(l, Silence(p)), k - 1, n - p);
      SilenceConcat(p, n - p);
      PollsConcat(l, Silence(p), Silence(n - p));
    }
  }

  predicate EmptyWaiting(l: Line) {
    && l.pending == [] && ValidState(l.state)
    && l.state.delay == 0 && l.state.tx.size == 0 && l.state.tx.escape == 0
    && l.state.link.pkt == NONE && l.state.link.resp != RESPOND_CONF
    && l.state.link.out.Some? && l.state.link.out.value.payload == []
  }

  /** The stuffed header of the pending packet. */
  function HeaderOnLine(l: Link): seq<Octet>
    requires l.out.Some?
  {
    Slip.Encode(EncodeHeader(HeaderOf(PendingFrame(l))))
  }

  lemma EmptyPeriod(l: Line)
    requires EmptyWaiting(l)
    ensures var o := Polls(l, Silence(1 + |HeaderOnLine(l.state.link)|));
            && o.output == [Slip.FRAME] + HeaderOnLine(l.state.link)
            && EmptyWaiting(o.line) && HeaderOnLine(o.line.state.link) == HeaderOnLine(l.state.link)
  {
    hide Polls, Slip.Encode, EncodeHeader, HeaderOf;
    EmptyPayloadIsNeverFinished(l);
    var m := PolledLine(l, Silence(1 + |HeaderOnLine(l.state.link)|));
    assert PendingFrame(m.state.link) == PendingFrame(l.state.link);
  }

  lemma HeaderToSend(tx: Tx, header: seq<Octet>)
    requires tx.escape == 0 && tx.unsent == header
    ensures ToSend(HeaderOnly(tx)) == Slip.Encode(header) + [Slip.FRAME]
  {
    assert header + [] + [] == header;
  }

  /** And what is on the line then is refused by every receiver. */
  lemma HeaderAloneIsRefused(f: Frame)
    requires |f.payload| <= 4095
    ensures !Intact(EncodeHeader(HeaderOf(f)), [])
  {
    hide EncodeHeader, DecodeHeader;
    HeaderRoundTrip(HeaderOf(f));
  }
}
