/** The engine as the source runs it: an object whose record, UART and buffers change in place. Abs() reads it as a
    value of EngineSpec, and every method is proved to do to Abs() what the function of that module says. */
module Engine {
  import opened Crc
  import opened Framing
  import opened FrameLevel
  import opened EngineSpec
  import Slip

  /** A packet of the host to receive into. length is the room there is, and after a delivery the size of what
      was received. */
  class HostPacket {
    var channel: Octet
    var reliable: bool
    var length: nat
    const payload: array<Octet>

    constructor (payload: array<Octet>)
      ensures this.payload == payload && length == payload.Length
    {
      this.payload := payload;
      channel, reliable, length := 0, false, payload.Length;
    }

    ghost function Contents(): Packet
      requires length <= payload.Length
      reads this, payload
    {
      Packet(channel, reliable, payload[..length])
    }

    ghost function Room(): Buffer
      reads `length, payload
    {
      Buffer(length, payload[..])
    }
  }

  /** The host packet holds what was delivered. */
  ghost predicate Delivered(p: HostPacket, packet: Packet)
    reads p, p.payload
  {
    p.length <= p.payload.Length && p.Contents() == packet
  }

  /** What a send pointer points to: octets that do not change while they are being sent, which are the constants of
      link establishment and the payload of the host's packet; or one of the engine's own buffers. */
  datatype Pointer = Null | Octets(octets: seq<Octet>) | Header | AckHeader | CrcBuffer

  /** The sending part of the record. ptr and offset: where the next octet of the current block is. size: how many
      octets of it are left, the one whose escape sequence is half out included. */
  datatype Sender = Sender(escape: Octet, ptr: Pointer, offset: nat, size: nat, nextPtr: Option<seq<Octet>>,
                           nextSize: nat, crc: Register, needCrc: bool)

  function NextBlock(s: Sender): Option<seq<Octet>>
    requires s.nextPtr.Some? ==> s.nextSize <= |s.nextPtr.value|
  {
    if s.nextPtr.None? then None else Some(s.nextPtr.value[..s.nextSize])
  }

  /** The octets of the current block that have not been fetched. */
  function Unfetched(s: Sender): nat {
    if s.size == 0 || s.escape == 0 then s.size else s.size - 1
  }

  /** The pointers are good for n octets of the current block and for the whole next one. */
  predicate Pointing(s: Sender, pointed: seq<Octet>, n: nat) {
    s.offset + n <= |pointed| && (s.nextPtr.Some? ==> s.nextSize <= |s.nextPtr.value|)
  }

  /** The transmitter in the middle of a frame, with n octets of the current block not yet fetched. */
  function ViewAt(s: Sender, pointed: seq<Octet>, n: nat): Tx
    requires Pointing(s, pointed, n)
  {
    Tx(s.escape, pointed[s.offset..s.offset + n], s.size, NextBlock(s), s.crc, s.needCrc)
  }

  /** A transmitter that is not in the middle of a frame. */
  function Resting(s: Sender): Tx {
    Tx(s.escape, [], 0, None, s.crc, s.needCrc)
  }

  predicate Sensible(s: Sender, pointed: seq<Octet>) {
    s.size != 0 ==> Pointing(s, pointed, Unfetched(s))
  }

  function View(s: Sender, pointed: seq<Octet>): Tx
    requires Sensible(s, pointed)
  {
    if s.size == 0 then Resting(s) else ViewAt(s, pointed, Unfetched(s))
  }

  class MicroBcsp {
    // the UART: octets received and not yet read, and octets put on the line
    var input: seq<Slip.Reading>
    var output: seq<Octet>

    // the record
    var link: Link
    var sender: Sender
    var delay: nat
    var receiveSlipEscape: bool
    var receiveIndex: int
    var receivePacket: HostPacket?

    // the static buffers
    const receiveHeader: array<Octet>
    const sendHeader: array<Octet>
    const sendAckHeader: array<Octet>
    const sendCrc: array<Octet>

    // ---------- the record as a value ----------

    ghost function AbsBuffer(): Option<Buffer>
      reads `receivePacket, receivePacket, if receivePacket == null then {} else {receivePacket.payload}
    {
      if receivePacket == null then None else Some(receivePacket.Room())
    }

    ghost function AbsRx(): Rx
      reads `receiveSlipEscape, `receiveIndex, `receivePacket, receiveHeader
      reads receivePacket, if receivePacket == null then {} else {receivePacket.payload}
    {
      Rx(receiveSlipEscape, receiveIndex, receiveHeader[..], AbsBuffer())
    }

    /** The octets a pointer points to. */
    ghost function Pointed(p: Pointer): seq<Octet>
      reads sendHeader, sendAckHeader, sendCrc
    {
      match p
      case Null => []
      case Octets(octets) => octets
      case Header => sendHeader[..]
      case AckHeader => sendAckHeader[..]
      case CrcBuffer => sendCrc[..]
    }

    ghost predicate Static(a: array<Octet>) {
      a == receiveHeader || a == sendHeader || a == sendAckHeader || a == sendCrc
    }

    /** The static buffers are different ones, and the ack header is blank but for its first and last octets. */
    ghost predicate Buffers()
      reads sendAckHeader
    {
      && receiveHeader.Length == 4 && sendHeader.Length == 4 && sendAckHeader.Length == 4 && sendCrc.Length == 2
      && receiveHeader != sendHeader && receiveHeader != sendAckHeader && receiveHeader != sendCrc
      && sendHeader != sendAckHeader && sendHeader != sendCrc && sendAckHeader != sendCrc
      && sendAckHeader[1] == 0 && sendAckHeader[2] == 0
    }

    ghost predicate Separated()
      reads `receivePacket
    {
      receivePacket != null ==> !Static(receivePacket.payload)
    }

    ghost predicate Readable()
      reads `sender, sendHeader, sendAckHeader, sendCrc
    {
      Buffers() && Sensible(sender, Pointed(sender.ptr))
    }

    ghost function AbsTx(): Tx
      requires Readable()
      reads `sender, sendHeader, sendAckHeader, sendCrc
    {
      View(sender, Pointed(sender.ptr))
    }

    ghost function Abs(): State
      requires Readable()
      reads `link, `sender, `delay, `receiveSlipEscape, `receiveIndex, `receivePacket
      reads receiveHeader, sendHeader, sendAckHeader, sendCrc
      reads receivePacket, if receivePacket == null then {} else {receivePacket.payload}
    {
      State(link, AbsTx(), AbsRx(), delay)
    }

    ghost predicate Valid()
      reads `link, `sender, `delay, `receiveSlipEscape, `receiveIndex, `receivePacket
      reads receiveHeader, sendHeader, sendAckHeader, sendCrc
      reads receivePacket, if receivePacket == null then {} else {receivePacket.payload}
    {
      Readable() && Separated() && ValidState(Abs())
    }

    // ---------- the host's interface ----------

    constructor ()
      ensures Valid() && input == [] && output == []
      ensures var s := Abs();
              s == InitializeEngine(s) && s.link.out.None? && s.link.resp == 0 && !s.link.sendAck && s.rx.buffer.None?
    {
      input, output := [], [];
      link := Link(UNINITIALIZED, 0, SYNC, 0, 0, false, None);
      sender := Sender(0, Null, 0, 0, None, 0, 0, false);
      delay := 0;
      receiveSlipEscape, receiveIndex, receivePacket := false, -4, null;
      receiveHeader := new Octet[] [0, 0, 0, 0];
      sendHeader := new Octet[] [0, 0, 0, 0];
      sendAckHeader := new Octet[] [0, 0, 0, 0];
      sendCrc := new Octet[] [0, 0];
    }

    /** ubcsp_initialize */
    method InitializeRecord()
      requires Readable()
      modifies `link, `sender, `receiveIndex, `delay
      ensures Readable() && link == Initialize(old(link)) && AbsTx() == Idle(old(AbsTx()))
      ensures receiveIndex == -4 && delay == 0
      ensures old(Valid()) ==> Valid() && Abs() == InitializeEngine(old(Abs()))
    {
      link := link.(ackNo := 0, seqNo := 0);
      sender := sender.(ptr := Null, size := 0);
      receiveIndex := -4;
      delay := 0;
      link := link.(le := UNINITIALIZED, pkt := SYNC);
    }

    /** ubcsp_send_packet: cuts short whatever is being sent. */
    method SubmitPacket(p: Packet)
      requires Valid()
      modifies `link, `sender
      ensures Valid() && Abs() == SendPacket(old(Abs()), p)
    {
      link := link.(out := Some(p));
      sender := sender.(size := 0, ptr := Null);
    }

    /** ubcsp_receive_packet */
    method ReceiveInto(p: HostPacket)
      requires Valid() && p.length <= p.payload.Length && 4 <= p.payload.Length && !Static(p.payload)
      modifies `receivePacket, `receiveIndex
      ensures Valid() && Abs() == ReceivePacket(old(Abs()), p.Room())
      ensures receivePacket == p
    {
      receivePacket := p;
      receiveIndex := -4;
    }

    // ---------- sending ----------

    method PutUart(ch: Octet)
      modifies `output
      ensures output == old(output) + [ch]
    {
      output := output + [ch];
    }

    /** ubcsp_put_slip_uart */
    method PutSlipUart(ch: Octet)
      requires sender.escape == 0
      modifies `output, `sender
      ensures output == old(output) + [PutSlip(ch).0]
      ensures sender == old(sender).(escape := PutSlip(ch).1)
    {
      if ch == Slip.FRAME {
        PutUart(Slip.ESCAPE);
        sender := sender.(escape := Slip.ESCAPE_FRAME);
      } else if ch == Slip.ESCAPE {
        PutUart(Slip.ESCAPE);
        sender := sender.(escape := Slip.ESCAPE_ESCAPE);
      } else {
        PutUart(ch);
      }
    }

    /** The octet at an offset from a pointer. */
    method Fetch(p: Pointer, offset: nat) returns (value: Octet)
      requires offset < |Pointed(p)|
      ensures value == Pointed(p)[offset]
    {
      match p {
        case Null =>
        case Octets(octets) => value := octets[offset];
        case Header => value := sendHeader[offset];
        case AckHeader => value := sendAckHeader[offset];
        case CrcBuffer => value := sendCrc[offset];
      }
    }

    /** ubcsp_setup_packet: the checksum, if it has to be computed, goes into the engine's own header buffer. */
    method SetupPacket(part1: Pointer, compute: bool, part2: Option<seq<Octet>>, len2: nat)
      requires Buffers() && |Pointed(part1)| == 4 && (compute ==> part1.Header? || part1.AckHeader?)
      requires part2.Some? ==> len2 <= |part2.value|
      modifies `sender, if part1.Header? then {sendHeader} else if part1.AckHeader? then {sendAckHeader} else {}
      ensures Readable() && sender.size == 4
      ensures var h := old(Pointed(part1));
              var header := if compute then h[3 := Checksum(h[0], h[1], h[2])] else h;
              AbsTx() == Setup(Resting(old(sender)), header, if part2.Some? then Some(part2.value[..len2]) else None)
    {
      hide Checksum;
      ghost var h := Pointed(part1);
      if compute {
        var header := if part1.Header? then sendHeader else sendAckHeader;
        header[3] := Checksum(header[0], header[1], header[2]);
        assert header[..] == h[3 := Checksum(h[0], h[1], h[2])];
      }
      sender := sender.(ptr := part1, offset := 0, size := 4);
      sender := sender.(nextPtr := part2, nextSize := len2);
      sender := sender.(crc := PRESET);
      sender := sender.(needCrc := true);
    }

    /** ubcsp_sent_packet */
    method SentPacket() returns (sent: bool)
      modifies `link
      ensures link == FinishFrame(old(link))
      ensures sent == (old(link).out.Some? && link.out.None?)
    {
      if link.out.Some? {
        if !link.out.value.reliable {
          link := link.(out := None);
          return true;
        }
      }
      return false;
    }

    /** Fetches the next octet of the block, or finishes an escape sequence. */
    method SendOctetOfBlock()
      requires Readable() && sender.size != 0 && ValidTx(AbsTx())
      modifies `sender, `output
      ensures var (tx, out) := SendOctet(old(AbsTx()));
              && Pointing(sender, Pointed(sender.ptr), |tx.unsent|)
              && ViewAt(sender, Pointed(sender.ptr), |tx.unsent|) == tx
              && output == old(output) + [out]
      ensures sender.size == old(sender).size && sender.ptr == old(sender).ptr
    {
      hide Step, PutSlip;
      if sender.escape != 0 {
        PutUart(sender.escape);
        sender := sender.(escape := 0);
      } else {
        var value := Fetch(sender.ptr, sender.offset);
        sender := sender.(offset := sender.offset + 1);
        sender := sender.(crc := Step(value, sender.crc));
        PutSlipUart(value);
      }
    }

    /** The end of a block: the next one, or the CRC, or the closing FRAME octet. */
    method FinishBlock() returns (sent: bool, wait: nat)
      requires Buffers() && sender.size == 0 && sender.escape == 0 && Pointing(sender, Pointed(sender.ptr), 0)
      modifies `sender, `output, `link, sendCrc
      ensures Readable()
      ensures var (tx, ended) := EndOfBlock(old(ViewAt(sender, Pointed(sender.ptr), 0)));
              && AbsTx() == tx
              && output == old(output) + (if ended then [Slip.FRAME] else [])
              && link == (if ended then FinishFrame(old(link)) else old(link))
              && sent == (old(link).out.Some? && link.out.None?)
              && wait == (if ended then POLL_DELAY else 0)
    {
      hide Reverse, HighOctet, LowOctet, FinishFrame;
      sent, wait := false, 0;
      var next, size := sender.nextPtr, sender.nextSize;
      sender := sender.(nextPtr := None, nextSize := 0);
      match next {
        case Some(octets) =>
          sender := sender.(ptr := Octets(octets), offset := 0, size := size);
        case None =>
          sender := sender.(ptr := Null, size := 0);
          if sender.needCrc {
            sender := sender.(needCrc := false);
            var crc := CrcReverse(sender.crc);
            sender := sender.(crc := crc);
            sendCrc[0] := HighOctet(crc);
            sendCrc[1] := LowOctet(crc);
            sender := sender.(ptr := CrcBuffer, offset := 0, size := 2);
          } else {
            PutUart(Slip.FRAME);
            sent := SentPacket();
            wait := POLL_DELAY;
          }
      }
    }

    /** The part of ubcsp_poll that continues the frame being sent. */
    method ContinueFrame() returns (sent: bool, wait: nat)
      requires Readable() && sender.size != 0 && ValidTx(AbsTx())
      modifies `sender, `output, `link, sendCrc
      ensures Readable()
      ensures var (tx, out, ended) := Advance(old(AbsTx()));
              && AbsTx() == tx
              && output == old(output) + (if ended then [out, Slip.FRAME] else [out])
              && link == (if ended then FinishFrame(old(link)) else old(link))
              && sent == (old(link).out.Some? && link.out.None?)
              && wait == (if ended then POLL_DELAY else 0)
    {
      hide SendOctet, EndOfBlock, FinishFrame, Pointed;
      SendOctetFacts(AbsTx());
      ghost var out := SendOctet(AbsTx()).1;
      sent, wait := false, 0;
      SendOctetOfBlock();
      if sender.escape == 0 {
        sender := sender.(size := sender.size - 1);
        if sender.size == 0 {
          sent, wait := FinishBlock();
          assert old(output) + [out] + [Slip.FRAME] == old(output) + [out, Slip.FRAME];
          assert old(output) + [out] + [] == old(output) + [out];
        }
      }
    }

    /** A link establishment frame: the constant header, and one of the constant payloads. */
    method StartLeFrame(k: LePacket)
      requires k < NONE && Buffers()
      modifies `sender, `output
      ensures Readable() && sender.size != 0
      ensures AbsTx() == Setup(Resting(old(sender)), EncodeHeader(HeaderOf(LeFrame(k))), Some(LeFrame(k).payload))
      ensures output == old(output) + [Slip.FRAME]
    {
      PutUart(Slip.FRAME);
      LeHeader(k);
      WhichLeOctets(k);
      assert LE_OCTETS[k][..4] == LE_OCTETS[k];
      SetupPacket(Octets(LE_HEADER), false, Some(LE_OCTETS[k]), 4);
    }

    /** A data frame, with the sequence and acknowledgement numbers of the moment. */
    method StartDataFrame(p: Packet)
      requires Buffers()
      modifies `sender, `output, sendHeader
      ensures Readable() && sender.size != 0
      ensures AbsTx() == Setup(Resting(old(sender)), EncodeHeader(HeaderOf(DataFrame(link, p))), Some(p.payload))
      ensures output == old(output) + [Slip.FRAME]
    {
      hide ControlOctet, ChannelOctet, LengthOctet, Checksum, EncodeHeader, HeaderOf;
      PutUart(Slip.FRAME);
      sendHeader[0] := ControlOctet(p.reliable, true, link.ackNo, link.seqNo);
      sendHeader[1] := ChannelOctet(p.channel, |p.payload|);
      sendHeader[2] := LengthOctet(|p.payload|);
      DataHeader(link, p, sendHeader[3]);
      assert sendHeader[..] == [sendHeader[0], sendHeader[1], sendHeader[2], sendHeader[3]];
      assert p.payload[..|p.payload|] == p.payload;
      SetupPacket(Pointer.Header, true, Some(p.payload), |p.payload|);
    }

    /** An ack frame: everything in its header but the acknowledgement number is 0. */
    method StartAckFrame()
      requires Buffers()
      modifies `sender, `output, sendAckHeader
      ensures Readable() && sender.size != 0
      ensures AbsTx() == Setup(Resting(old(sender)), EncodeHeader(HeaderOf(AckFrame(link))), None)
      ensures output == old(output) + [Slip.FRAME]
    {
      hide ControlOctet, Checksum, EncodeHeader, HeaderOf;
      PutUart(Slip.FRAME);
      sendAckHeader[0] := ControlOctet(false, true, link.ackNo, 0);
      AckHeaderOctets(link, sendAckHeader[3]);
      assert sendAckHeader[..] == [sendAckHeader[0], 0, 0, sendAckHeader[3]];
      SetupPacket(AckHeader, true, None, 0);
    }

    /** The part of ubcsp_poll that starts a frame. */
    method StartFrame() returns (wait: nat, early: bool)
      requires Readable() && sender.size == 0
      modifies `sender, `output, `link, sendHeader, sendAckHeader
      ensures Readable() && link == NextFrame(old(link)).link
      ensures match NextFrame(old(link)).frame
              case None => AbsTx() == old(AbsTx()) && output == old(output) && wait == POLL_DELAY && !early
              case Some(f) =>
                && AbsTx() == Setup(old(AbsTx()), EncodeHeader(HeaderOf(f)), SecondBlock(old(link), f))
                && output == old(output) + [Slip.FRAME] && wait == 0 && (early <==> old(link).pkt != NONE)
    {
      hide NextLePacket, EncodeHeader, HeaderOf, Pointed, Sensible, Setup, Buffers;
      wait, early := 0, false;
      assert AbsTx() == Resting(sender);
      if link.pkt == NONE {
        if link.resp == RESPOND_CONF {
          StartLeFrame(CONF_RESP);
          link := link.(resp := 0);
        } else if link.out.Some? {
          StartDataFrame(link.out.value);
          link := link.(sendAck := false);
        } else if link.sendAck {
          StartAckFrame();
          link := link.(sendAck := false);
        } else {
          wait := POLL_DELAY;
        }
      } else {
        StartLeFrame(link.pkt);
        link := link.(pkt := NextLePacket(link.le, link.resp));
        link := link.(resp := 0);
        early := true;
      }
    }

    /** The transmitting half of ubcsp_poll. */
    method TransmitNow() returns (sent: bool, wait: nat, early: bool)
      requires Valid()
      modifies `sender, `output, `link, sendHeader, sendAckHeader, sendCrc
      ensures Valid()
      ensures var t := Transmit(old(Abs()));
              && Abs() == t.state && output == old(output) + t.output
              && sent == t.sent && wait == t.delay && early == t.early
    {
      hide Advance, NextFrame, Setup, EncodeHeader, HeaderOf, SecondBlock, FinishFrame, ValidTx, ValidRx, AbsTx;
      hide Sensible, Pointed;
      sent, wait, early := false, 0, false;
      SizeOfTx();
      ghost var s := Abs();
      TransmitIsValidNow(s);
      if sender.size != 0 {
        sent, wait := ContinueFrame();
      } else {
        NothingToStart(link);
        wait, early := StartFrame();
        assert old(output) + [] == old(output);
      }
      assert AbsRx() == s.rx;
    }

    lemma SizeOfTx()
      requires Readable()
      ensures AbsTx().size == sender.size
    {
    }

    // ---------- receiving ----------

    /** ubcsp_which_le_payload */
    method WhichLePayload(payload: array<Octet>) returns (k: nat)
      requires payload.Length >= 4
      ensures k == WhichLe(payload[..])
    {
      k := 0;
      while k < 4
        invariant k <= 4
        invariant forall i :: 0 <= i < k ==> payload[..4] != LE_OCTETS[i]
      {
        var octet := 0;
        while octet < 4 && payload[octet] == LE_OCTETS[k][octet]
          invariant octet <= 4
          invariant forall i :: 0 <= i < octet ==> payload[i] == LE_OCTETS[k][i]
        {
          octet := octet + 1;
        }
        if octet == 4 {
          assert payload[..4] == LE_OCTETS[k];
          return k;
        }
        assert payload[..4][octet] != LE_OCTETS[k][octet];
        k := k + 1;
      }
      k := 5;
    }

    /** The CRC of the header and of the first n octets stored. */
    method CrcOfPacket(n: nat) returns (crc: Register)
      requires receiveHeader.Length == 4 && receivePacket != null && n <= receivePacket.payload.Length
      ensures crc == Crc.Crc(receiveHeader[..] + receivePacket.payload[..n], PRESET)
    {
      hide Step;
      crc := PRESET;
      var loop := 0;
      while loop < 4
        invariant loop <= 4
        invariant crc == Crc.Crc(receiveHeader[..loop], PRESET)
      {
        CrcAppend(receiveHeader[..loop], receiveHeader[loop], PRESET);
        assert receiveHeader[..loop + 1] == receiveHeader[..loop] + [receiveHeader[loop]];
        crc := Step(receiveHeader[loop], crc);
        loop := loop + 1;
      }
      assert receiveHeader[..4] == receiveHeader[..];
      ghost var afterHeader := crc;
      var payload := receivePacket.payload;
      loop := 0;
      while loop < n
        invariant loop <= n
        invariant crc == Crc.Crc(payload[..loop], afterHeader)
      {
        CrcAppend(payload[..loop], payload[loop], afterHeader);
        assert payload[..loop + 1] == payload[..loop] + [payload[loop]];
        crc := Step(payload[loop], crc);
        loop := loop + 1;
      }
      CrcConcat(receiveHeader[..], payload[..n], PRESET);
    }

    /** The length and CRC checks of ubcsp_recevied_packet; the CRC octets are taken off the count. */
    method CheckPayload(receiveCrc: bool, length: nat) returns (ok: bool)
      requires receiveHeader.Length == 4 && receivePacket != null && 0 <= receiveIndex <= receivePacket.payload.Length
      requires ChecksumHolds(receiveHeader[..])
      requires DecodeHeader(receiveHeader[..]).crc == receiveCrc && DecodeHeader(receiveHeader[..]).length == length
      modifies `receiveIndex
      ensures ok == Intact(receiveHeader[..], receivePacket.payload[..old(receiveIndex)])
      ensures ok ==> receiveIndex == length
    {
      hide *;
      var payload := receivePacket.payload;
      ghost var header, stored := receiveHeader[..], payload[..receiveIndex];
      IntactCases(header, stored);
      if receiveCrc {
        if length + 2 != receiveIndex {
          return false;
        }
        receiveIndex := receiveIndex - 2;
        var crc := CrcOfPacket(receiveIndex);
        crc := CrcReverse(crc);
        assert stored[..length] == payload[..length];
        ok := HighOctet(crc) == payload[receiveIndex] && LowOctet(crc) == payload[receiveIndex + 1];
      } else {
        ok := length == receiveIndex;
      }
    }

    /** The link establishment part of ubcsp_recevied_packet. */
    method ReceivedLe(le: nat, retired: bool) returns (activity: Activity)
      requires Readable()
      modifies `link, `sender, `receiveIndex, `delay
      ensures var e := AcceptLe(old(link), le, retired);
              && activity == e.activity && link == e.link
              && Readable() && AbsTx() == (if e.cut then Idle(old(AbsTx())) else old(AbsTx()))
              && delay == 0
    {
      hide Pointed, Buffers;
      delay := 0;
      activity := QUIET.(sent := retired);
      if le == SYNC {
        if link.le < ACTIVE {
          link := link.(resp := RESPOND_SYNC);
        } else {
          InitializeRecord();
          return QUIET.(reset := true);
        }
      } else if le == SYNC_RESP {
        if link.le < INITIALIZED {
          link := link.(le := INITIALIZED);
        }
      } else if le == CONF {
        if link.le >= INITIALIZED {
          link := link.(resp := RESPOND_CONF);
        }
      } else if le == CONF_RESP {
        if link.le < ACTIVE {
          link := link.(le := ACTIVE);
          sender := sender.(size := 0);
          return activity.(sent := true);
        }
      }
    }

    /** The acknowledgement part of ubcsp_recevied_packet. */
    method ReceivedAck(receiveAck: Count) returns (retired: bool)
      modifies `link, `delay
      ensures retired == (receiveAck != old(link).seqNo && old(link).out.Some? && old(link).out.value.reliable)
      ensures link == (if retired then Retire(old(link)) else old(link))
      ensures delay == (if retired then 0 else old(delay))
    {
      hide Increment;
      retired := false;
      if receiveAck != link.seqNo {
        if link.out.Some? && link.out.value.reliable {
          link := link.(out := None);
          link := link.(seqNo := Increment(link.seqNo));
          delay := 0;
          retired := true;
        }
      }
    }

    /** The part of ubcsp_recevied_packet after the integrity checks. */
    method AcceptPacket(receiveAck: Count, receiveSeq: Count, length: nat) returns (activity: Activity)
      requires Readable() && receivePacket != null && receivePacket.payload.Length >= 4 && receiveIndex == length
      modifies `link, `sender, `delay, `receiveIndex, `receivePacket, receivePacket`length
      ensures var p := old(receivePacket);
              var e := Accept(old(link), Seen(p.reliable, receiveAck, receiveSeq, p.channel, length != 0,
                                              WhichLe(old(p.payload[..]))));
              && activity == e.activity && link == e.link
              && Readable() && AbsTx() == (if e.cut then Idle(old(AbsTx())) else old(AbsTx()))
              && delay == (if e.prompt then 0 else old(delay))
              && receivePacket == (if e.delivered then null else p)
              && p.length == (if e.delivered then length else old(p.length))
    {
      hide Increment, WhichLe, Retire, Readable, AbsTx;
      var packet := receivePacket;
      var retired := ReceivedAck(receiveAck);
      activity := QUIET.(sent := retired);
      if packet.channel == LE_CHANNEL {
        var le := WhichLePayload(packet.payload);
        activity := ReceivedLe(le, retired);
      } else if receiveIndex != 0 {
        if link.le == ACTIVE {
          if packet.reliable {
            link := link.(sendAck := true);
            if receiveSeq == link.ackNo {
              link := link.(ackNo := Increment(link.ackNo));
              packet.length := length;
              receivePacket := null;
              activity := activity.(received := true, ack := true);
            }
          } else {
            packet.length := length;
            receivePacket := null;
            activity := activity.(received := true);
          }
        }
      }
    }

    /** ubcsp_recevied_packet. A packet that is delivered is let go of, with its fields filled in. */
    method ReceivedPacketNow() returns (activity: Activity)
      requires Valid() && receivePacket != null && receiveIndex >= 0
      modifies `link, `sender, `delay, `receiveIndex, `receivePacket, receivePacket
      ensures var p := ReceivedPacket(old(Abs()));
              && activity == p.activity && link == p.state.link && delay == p.state.delay
              && Readable() && AbsTx() == p.state.tx
              && receivePacket == (if p.delivered.Some? then null else old(receivePacket))
              && (p.delivered.None? ==> old(receivePacket).length == old(receivePacket.length))
              && (p.delivered.Some? ==> Delivered(old(receivePacket), p.delivered.value))
    {
      hide Accept, Intact, ChecksumHolds, WhichLe, LengthField, ValidTx;
      hide ReliableField, CrcField, AckField, SeqField, ChannelField, AbsTx, Buffers, Sensible;
      activity := QUIET;
      var packet := receivePacket;
      ghost var header, stored := receiveHeader[..], packet.payload[..receiveIndex];
      assert Stored(AbsRx()) == stored;
      IntactNeedsChecksum(header, stored);
      if Sum(receiveHeader[0], receiveHeader[1], receiveHeader[2], receiveHeader[3]) != 0xff {
        link := link.(sendAck := true);
        return;
      }
      packet.reliable := ReliableField(receiveHeader[0]);
      var receiveCrc := CrcField(receiveHeader[0]);
      packet.channel := ChannelField(receiveHeader[1]);
      var length := LengthField(receiveHeader[1], receiveHeader[2]);
      var ok := CheckPayload(receiveCrc, length);
      if !ok {
        link := link.(sendAck := true);
        return;
      }
      activity := AcceptPacket(AckField(receiveHeader[0]), SeqField(receiveHeader[0]), length);
      assert packet.payload[..length] == stored[..length];
    }

    /** A FRAME octet in ubcsp_poll's receive loop. */
    method ReceiveBoundary(before: Activity) returns (activity: Activity)
      requires Valid() && receivePacket != null && !receiveSlipEscape && !before.ack
      modifies `link, `sender, `delay, `receiveIndex, `receivePacket, receivePacket
      ensures Valid()
      ensures var p := BoundaryReception(old(Abs()));
              && Abs() == p.state && activity == before.Or(p.activity)
              && (receivePacket != null ==> receivePacket == old(receivePacket))
              && (p.delivered.Some? ==> Delivered(old(receivePacket), p.delivered.value))
    {
      hide ReceivedPacket, ValidTx;
      BoundaryIsValid(Abs());
      activity := before;
      if receiveIndex >= 0 {
        var a := ReceivedPacketNow();
        activity := activity.Or(a);
        if activity.ack {
          delay := 0;
        }
      }
      receiveIndex := -4;
    }

    /** An octet of a frame in ubcsp_poll's receive loop. What does not fit is dropped. */
    method StoreOctet(value: Octet)
      requires Valid() && receivePacket != null
      modifies `receiveIndex, receiveHeader, receivePacket.payload
      ensures Valid() && Abs() == old(Abs()).(rx := Store(old(AbsRx()), value))
    {
      hide ValidTx;
      if receiveIndex < 0 {
        receiveHeader[receiveIndex + 4] := value;
        receiveIndex := receiveIndex + 1;
      } else if receiveIndex < receivePacket.length {
        receivePacket.payload[receiveIndex] := value;
        receiveIndex := receiveIndex + 1;
      }
    }

    /** One octet of ubcsp_poll's receive loop. */
    method ReceiveOctetNow(r: Slip.Reading, before: Activity) returns (activity: Activity)
      requires Valid() && receivePacket != null && !before.ack
      modifies `link, `sender, `delay, `receiveIndex, `receivePacket, `receiveSlipEscape, receiveHeader
      modifies receivePacket, receivePacket.payload
      ensures Valid()
      ensures var p := ReceiveOctet(old(Abs()), r);
              && Abs() == p.state && activity == before.Or(p.activity)
              && (receivePacket != null ==> receivePacket == old(receivePacket))
              && (p.delivered.Some? ==> Delivered(old(receivePacket), p.delivered.value))
    {
      hide BoundaryReception, Store, ValidTx, Slip.Deslip;
      activity := before;
      var value := r.value;
      if receiveSlipEscape {
        value := Slip.Deslip(r);
        StoreOctet(value);
        receiveSlipEscape := false;
      } else if value == Slip.FRAME {
        activity := ReceiveBoundary(before);
      } else if value == Slip.ESCAPE {
        receiveSlipEscape := true;
      } else {
        StoreOctet(value);
      }
    }

    lemma Armed()
      requires Valid()
      ensures Readable() && ValidState(Abs()) && (receivePacket != null <==> Abs().rx.buffer.Some?)
    {
    }

    /** The receive loop of ubcsp_poll: reads the UART until it is empty or the packet to receive into has been
        handed over. */
    method ReceiveAll(before: Activity) returns (activity: Activity)
      requires Valid() && !before.ack
      modifies `input, `link, `sender, `delay, `receiveIndex, `receivePacket, `receiveSlipEscape, receiveHeader
      modifies receivePacket, if receivePacket == null then {} else {receivePacket.payload}
      ensures Valid()
      ensures var r := Receive(old(Abs()), old(input));
              && Abs() == r.state && input == r.rest && activity == before.Or(r.activity)
              && (receivePacket != null ==> receivePacket == old(receivePacket))
              && (r.delivered.Some? ==> old(receivePacket) != null && Delivered(old(receivePacket), r.delivered.value))
    {
      hide Receive, ReceiveOctet, ValidState, Readable, AbsTx, Delivered, Valid, Abs, Towards;
      Armed();
      ghost var goal := Receive(Abs(), input);
      ghost var delivered: Option<Packet> := None;
      ghost var seen := QUIET;
      TowardsAtFirst(Abs(), input);
      activity := before;
      while receivePacket != null && input != []
        invariant Valid() && Readable() && ValidState(Abs())
        invariant receivePacket != null <==> Abs().rx.buffer.Some?
        invariant receivePacket != null ==> receivePacket == old(receivePacket)
        invariant activity == before.Or(seen)
        invariant (seen.ack || delivered.Some?) ==> receivePacket == null
        invariant delivered.Some? ==> old(receivePacket) != null && Delivered(old(receivePacket), delivered.value)
        invariant Towards(goal, Abs(), input, seen, delivered)
        decreases |input|
      {
        var value := input[0];
        ghost var p := ReceiveOctet(Abs(), value);
        ReceiveOctetIsValid(Abs(), value);
        TowardsNext(goal, Abs(), input, seen, delivered);
        input := input[1..];
        activity := ReceiveOctetNow(value, activity);
        delivered := if p.delivered.Some? then p.delivered else delivered;
        seen := seen.Or(p.activity);
        Armed();
      }
      TowardsAtLast(goal, Abs(), input, seen, delivered);
    }

    /** ubcsp_poll */
    method PollOnce() returns (activity: Activity, value: nat)
      requires Valid()
      modifies `input, `output, `link, `sender, `delay, `receiveIndex, `receivePacket, `receiveSlipEscape
      modifies receiveHeader, sendHeader, sendAckHeader, sendCrc
      modifies receivePacket, if receivePacket == null then {} else {receivePacket.payload}
      ensures Valid()
      ensures var p := Poll(old(Abs()), old(input));
              && Abs() == p.state && input == p.rest && output == old(output) + p.output
              && activity == p.activity && value == p.value
              && (receivePacket != null ==> receivePacket == old(receivePacket))
              && (p.delivered.Some? ==> old(receivePacket) != null && Delivered(old(receivePacket), p.delivered.value))
    {
      hide Transmit, Receive, ValidTx, ValidRx, Readable, AbsTx;
      TransmitIsValid(Abs());
      var wait := 0;
      activity := QUIET;
      if delay == 0 {
        var sent, early;
        sent, wait, early := TransmitNow();
        activity := activity.(sent := sent);
        if early {
          return QUIET, 0;
        }
      }
      activity := ReceiveAll(activity);
      delay := if delay > 0 then delay - 1 else wait;
      value := delay;
    }
  }

  /** How far the receive loop has come: what remains to be read completes the reception. */
  ghost predicate Towards(goal: Reading, s: State, input: seq<Slip.Reading>, seen: Activity,
                          delivered: Option<Packet>)
  {
    && ValidState(s)
    && var r := Receive(s, input);
       && goal.state == r.state && goal.rest == r.rest && goal.activity == seen.Or(r.activity)
       && goal.delivered == (if delivered.Some? then delivered else r.delivered)
  }

  lemma TowardsAtFirst(s: State, input: seq<Slip.Reading>)
    requires ValidState(s)
    ensures Towards(Receive(s, input), s, input, QUIET, None)
  {
    hide Receive, ValidState;
  }

  lemma TowardsNext(goal: Reading, s: State, input: seq<Slip.Reading>, seen: Activity, delivered: Option<Packet>)
    requires Towards(goal, s, input, seen, delivered) && s.rx.buffer.Some? && input != [] && delivered.None?
    ensures ValidState(s)
    ensures var p := ReceiveOctet(s, input[0]);
            Towards(goal, p.state, input[1..], seen.Or(p.activity),
                    if p.delivered.Some? then p.delivered else delivered)
  {
    hide Receive, ReceiveOctet, ValidState;
    ReceiveFirst(s, input);
  }

  lemma TowardsAtLast(goal: Reading, s: State, input: seq<Slip.Reading>, seen: Activity, delivered: Option<Packet>)
    requires Towards(goal, s, input, seen, delivered) && (s.rx.buffer.None? || input == [])
    ensures goal.state == s && goal.rest == input && goal.activity == seen && goal.delivered == delivered
  {
    hide ValidState;
  }

  lemma TransmitIsValidNow(s: State)
    requires ValidState(s)
    ensures ValidTx(Transmit(s).state.tx) && Transmit(s).state.rx == s.rx && Transmit(s).state.delay == s.delay
  {
    hide Advance, EncodeHeader, NextFrame, ValidRx, FinishFrame;
    if s.tx.size != 0 {
      AdvanceIsValid(s.tx);
    }
  }

  lemma NothingToStart(l: Link)
    ensures NextFrame(l).frame.None? ==> NextFrame(l).link == l
  {
  }

  lemma SendOctetFacts(tx: Tx)
    requires ValidTx(tx) && tx.size != 0
    ensures var tx1 := SendOctet(tx).0;
            tx1.size == tx.size == |tx1.unsent| + 1
  {
    hide Step;
  }

  /** The checks octet by octet, as the source makes them. */
  lemma IntactCases(header: seq<Octet>, stored: seq<Octet>)
    requires |header| == 4 && ChecksumHolds(header)
    ensures var h := DecodeHeader(header);
            Intact(header, stored) <==>
            if h.crc then
              && h.length + 2 == |stored|
              && var crc := Reverse(Crc.Crc(header + stored[..h.length], PRESET));
                 HighOctet(crc) == stored[h.length] && LowOctet(crc) == stored[h.length + 1]
            else
              h.length == |stored|
  {
    hide DecodeHeader, ChecksumHolds, Reverse, HighOctet, LowOctet;
    var h := DecodeHeader(header);
    if h.crc && h.length + 2 == |stored| {
      assert stored[h.length..] == [stored[h.length], stored[h.length + 1]];
      assert forall a: Octet, b: Octet, c: Octet, d: Octet :: [a, b] == [c, d] <==> a == c && b == d by {
        forall a: Octet, b: Octet, c: Octet, d: Octet ensures [a, b] == [c, d] <==> a == c && b == d {
          assert [a, b][0] == a && [a, b][1] == b && [c, d][0] == c && [c, d][1] == d;
        }
      }
    }
  }

  lemma IntactNeedsChecksum(header: seq<Octet>, stored: seq<Octet>)
    requires |header| == 4
    ensures Intact(header, stored) ==> ChecksumHolds(header)
    ensures ChecksumHolds(header) <==> Sum(header[0], header[1], header[2], header[3]) == 0xff
    ensures Intact(header, stored) ==> DecodeHeader(header).length <= |stored|
  {
  }

  const LE_HEADER: seq<Octet> := [0x40, 0x41, 0x00, 0x7E]

  /** The constant header of the source is the header of every link establishment frame. */
  lemma LeHeader(k: LePacket)
    requires k < NONE
    ensures LE_HEADER == EncodeHeader(HeaderOf(LeFrame(k)))
  {
    WhichLeOctets(k);
    assert ControlOctet(false, true, 0, 0) == 0x40;
    assert ChannelOctet(1, 4) == 0x41;
    assert LengthOctet(4) == 0x00;
    assert Checksum(0x40, 0x41, 0x00) == 0x7E;
  }

  lemma DataHeader(l: Link, p: Packet, last: Octet)
    ensures var h0 := ControlOctet(p.reliable, true, l.ackNo, l.seqNo);
            var h1, h2 := ChannelOctet(p.channel, |p.payload|), LengthOctet(|p.payload|);
            [h0, h1, h2, last][3 := Checksum(h0, h1, h2)] == EncodeHeader(HeaderOf(DataFrame(l, p)))
  {
    hide ControlOctet, ChannelOctet, LengthOctet, Checksum, ChannelField;
    MaskedTwice(p.channel, |p.payload|);
  }

  lemma AckHeaderOctets(l: Link, last: Octet)
    ensures var h0 := ControlOctet(false, true, l.ackNo, 0);
            [h0, 0, 0, last][3 := Checksum(h0, 0, 0)] == EncodeHeader(HeaderOf(AckFrame(l)))
  {
    hide ControlOctet, Checksum;
    assert ChannelOctet(0, 0) == 0 && LengthOctet(0) == 0;
  }
}
