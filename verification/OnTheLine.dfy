/** Frames octet by octet, with the numbers written out: where each field of the header goes, and whole frames as they
    are on the line. */
module OnTheLine {
  import opened Crc
  import opened Framing
  import opened FrameLevel
  import Slip

  // ---------- where the header fields go ----------

  lemma ControlNumber(reliable: bool, crc: bool, ackNo: Count, seqNo: Count)
    ensures ControlOctet(reliable, crc, ackNo, seqNo) as nat ==
            (if reliable then 128 else 0) + (if crc then 64 else 0) + 8 * (ackNo as nat) + seqNo as nat
  {
  }

  lemma NibblesNumber(x: Octet)
    ensures x as nat == (x & 0x0f) as nat + 16 * ((x >> 4) as nat)
    ensures (x & 0x0f) as nat == x as nat % 16
    ensures (x >> 4) as nat == x as nat / 16
  {
  }

  lemma ChannelNumber(channel: Octet, length: nat)
    ensures ChannelOctet(channel, length) as nat == channel as nat % 16 + 16 * (length % 16)
  {
    var n := (length % 16) as Octet;
    OctetOfNat(length % 16);
    NibbleField(n, channel);
    NibblesNumber(ChannelOctet(channel, length));
    NibblesNumber(channel);
    hide ChannelOctet;
  }

  /** Each field of a header in its place: the reliable bit, the CRC bit and the two numbers, acknowledgement above
      sequence, in the first octet; the channel below the low four bits of the length in the second; the rest of the
      length in the third. */
  lemma HeaderOctets(h: Header)
    requires h.length <= 4095
    ensures var o := EncodeHeader(h);
            && o[0] as nat == (if h.reliable then 128 else 0) + (if h.crc then 64 else 0)
                              + 8 * (h.ackNo as nat) + h.seqNo as nat
            && o[1] as nat == h.channel as nat % 16 + 16 * (h.length % 16)
            && o[2] as nat == h.length / 16
  {
    hide ControlOctet, ChannelOctet, Checksum;
    ControlNumber(h.reliable, h.crc, h.ackNo, h.seqNo);
    ChannelNumber(h.channel, h.length);
    OctetOfNat(h.length / 16);
  }

  /** The fourth completes the sum of the octets: a header is read if and only if it does. */
  lemma ChecksumRead(h0: Octet, h1: Octet, h2: Octet, h3: Octet)
    ensures ChecksumHolds([h0, h1, h2, h3]) <==> h0 + h1 + h2 + h3 == 0xff
  {
    HoldsIsSum([h0, h1, h2, h3]);
    hide *;
    SumUnfolds(h0, h1, h2, h3);
  }

  lemma HoldsIsSum(o: seq<Octet>)
    requires |o| == 4
    ensures ChecksumHolds(o) <==> Sum(o[0], o[1], o[2], o[3]) == 0xff
  {
    hide Sum;
  }

  lemma ControlRebuilt(h0: Octet)
    ensures ControlOctet(ReliableField(h0), CrcField(h0), AckField(h0), SeqField(h0)) == h0
  {
  }

  lemma ControlDigits(h0: nat, r: nat, c: nat, a: nat, s: nat)
    requires h0 == 128 * r + 64 * c + 8 * a + s && r < 2 && c < 2 && a < 8 && s < 8
    ensures h0 / 128 == r && h0 / 64 % 2 == c && h0 / 8 % 8 == a && h0 % 8 == s
  {
    assert h0 / 8 == 16 * r + 8 * c + a;
  }

  lemma ControlRead(h0: Octet)
    ensures (ReliableField(h0) <==> h0 as nat / 128 == 1) && (CrcField(h0) <==> h0 as nat / 64 % 2 == 1)
    ensures AckField(h0) as nat == h0 as nat / 8 % 8 && SeqField(h0) as nat == h0 as nat % 8
  {
    var r, c, a, s := ReliableField(h0), CrcField(h0), AckField(h0), SeqField(h0);
    ControlRebuilt(h0);
    ControlNumber(r, c, a, s);
    hide *;
    ControlDigits(h0 as nat, if r then 1 else 0, if c then 1 else 0, a as nat, s as nat);
  }

  /** What is read from any four octets of a header, damaged or not. */
  lemma FieldsRead(o: seq<Octet>)
    requires |o| == 4
    ensures var h := DecodeHeader(o);
            && (h.reliable <==> o[0] as nat / 128 == 1) && (h.crc <==> o[0] as nat / 64 % 2 == 1)
            && h.ackNo as nat == o[0] as nat / 8 % 8 && h.seqNo as nat == o[0] as nat % 8
            && h.channel as nat == o[1] as nat % 16
            && h.length == o[1] as nat / 16 + 16 * (o[2] as nat)
  {
    hide ReliableField, CrcField, AckField, SeqField;
    ControlRead(o[0]);
    NibblesNumber(o[1]);
  }

  lemma RegisterNumber(r: Register)
    ensures 256 * (HighOctet(r) as nat) + LowOctet(r) as nat == r as nat
  {
    RegisterSplit(r);
    Narrowed(r);
  }

  lemma RegisterSplit(r: Register)
    ensures 256 * ((r >> 8) as nat) + (r & 0x00ff) as nat == r as nat
  {
  }

  lemma Narrowed(r: Register)
    ensures HighOctet(r) as nat == (r >> 8) as nat
    ensures LowOctet(r) as nat == (r & 0x00ff) as nat
  {
  }

  /** The two CRC octets are the reversed register, high octet first. */
  lemma CrcNumber(message: seq<Octet>)
    ensures var o := CrcOctets(message);
            256 * (o[0] as nat) + o[1] as nat == Reverse(Crc.Crc(message, PRESET)) as nat
  {
    hide Reverse, HighOctet, LowOctet;
    RegisterNumber(Reverse(Crc.Crc(message, PRESET)));
  }

  // ---------- the header of a frame that is started ----------

  /** The header of the data or ack frame that is started, from the state of the link. */
  lemma StartedHeader(l: Link)
    requires l.pkt == NONE && l.resp != RESPOND_CONF && NextFrame(l).frame.Some?
    requires l.out.Some? ==> |l.out.value.payload| <= 4095
    ensures var f := NextFrame(l).frame.value;
            var o := EncodeHeader(HeaderOf(f));
            match l.out
            case Some(p) =>
              && o[0] as nat == (if p.reliable then 192 else 64) + 8 * (l.ackNo as nat) + l.seqNo as nat
              && o[1] as nat == p.channel as nat % 16 + 16 * (|p.payload| % 16)
              && o[2] as nat == |p.payload| / 16 && f.payload == p.payload
            case None =>
              o[0] as nat == 64 + 8 * (l.ackNo as nat) && o[1] == 0 && o[2] == 0 && f.payload == []
  {
    hide EncodeHeader, ChannelField;
    HeaderOctets(HeaderOf(NextFrame(l).frame.value));
    if l.out.Some? {
      ChannelTwice(l.out.value.channel);
    }
  }

  lemma ChannelTwice(c: Octet)
    ensures ChannelField(c) as nat % 16 == c as nat % 16
  {
    NibblesNumber(c);
  }

  // ---------- whole frames ----------

  lemma CrcOfTwo(a: Octet, b: Octet, r: Register)
    ensures Crc.Crc([a, b], r) == Step(b, Step(a, r))
  {
    hide Step;
    assert [a, b][1..] == [b] && [b][1..] == [];
    assert Crc.Crc([b], Step(a, r)) == Crc.Crc([], Step(b, Step(a, r)));
  }

  lemma CrcOfFour(a: Octet, b: Octet, c: Octet, d: Octet, r: Register)
    ensures Crc.Crc([a, b, c, d], r) == Step(d, Step(c, Step(b, Step(a, r))))
  {
    hide Step, Crc.Crc;
    CrcOfTwo(a, b, r);
    CrcOfTwo(c, d, Step(b, Step(a, r)));
    assert [a, b, c, d] == [a, b] + [c, d];
    CrcConcat([a, b], [c, d], r);
  }

  lemma Plain(s: seq<Octet>)
    requires forall i :: 0 <= i < |s| ==> s[i] != Slip.FRAME && s[i] != Slip.ESCAPE
    ensures Slip.Encode(s) == s
  {
    if s != [] {
      Plain(s[1..]);
    }
  }

  lemma LeHeaderFirstSteps()
    ensures Step(0x40, PRESET) == 0x4d83 && Step(0x41, 0x4d83) == 0xe553
  {
  }

  lemma LeHeaderLastSteps()
    ensures Step(0x00, 0xe553) == 0x60fb && Step(0x7E, 0x60fb) == 0xd3c5
  {
  }

  lemma LeHeaderRegister()
    ensures Crc.Crc([0x40, 0x41, 0x00, 0x7E], PRESET) == 0xd3c5
  {
    hide *;
    CrcOfFour(0x40, 0x41, 0x00, 0x7E, PRESET);
    LeHeaderFirstSteps();
    LeHeaderLastSteps();
  }

  lemma LeHeaderOctets(k: LePacket)
    requires k < NONE
    ensures EncodeHeader(HeaderOf(LeFrame(k))) == [0x40, 0x41, 0x00, 0x7E]
  {
    WhichLeOctets(k);
    assert ControlOctet(false, true, 0, 0) == 0x40;
    assert ChannelOctet(1, 4) == 0x41;
    assert LengthOctet(4) == 0x00;
    assert Checksum(0x40, 0x41, 0x00) == 0x7E;
  }

  lemma CrcFromRegister(message: seq<Octet>)
    ensures var r := Reverse(Crc.Crc(message, PRESET)); CrcOctets(message) == [HighOctet(r), LowOctet(r)]
  {
    hide Crc.Crc, Reverse, HighOctet, LowOctet;
  }

  /** The line of a link establishment frame, from the register after its payload. */
  lemma LeWire(k: LePacket)
    requires k < NONE
    ensures var r := Reverse(Crc.Crc(LE_OCTETS[k], 0xd3c5));
            Wire(LeFrame(k)) ==
              [0xC0] + Slip.Encode([0x40, 0x41, 0x00, 0x7E] + LE_OCTETS[k] + [HighOctet(r), LowOctet(r)]) + [0xC0]
  {
    hide Crc.Crc, Reverse, HighOctet, LowOctet, CrcOctets, EncodeHeader, HeaderOf, Slip.Encode;
    LeHeaderOctets(k);
    LeHeaderRegister();
    CrcConcat([0x40, 0x41, 0x00, 0x7E], LE_OCTETS[k], PRESET);
    CrcFromRegister([0x40, 0x41, 0x00, 0x7E] + LE_OCTETS[k]);
  }

  lemma SyncFirstSteps()
    ensures Step(0xDA, 0xd3c5) == 0xe8a5 && Step(0xDC, 0xe8a5) == 0xeeae
  {
  }

  lemma SyncLastSteps()
    ensures Step(0xED, 0xeeae) == 0x7071 && Step(0xED, 0x7071) == 0x5e95
  {
  }

  lemma SyncReversed()
    ensures HighOctet(Reverse(0x5e95)) == 0xA9 && LowOctet(Reverse(0x5e95)) == 0x7A
  {
  }

  lemma SyncRegister()
    ensures Crc.Crc([0xDA, 0xDC, 0xED, 0xED], 0xd3c5) == 0x5e95
    ensures HighOctet(Reverse(0x5e95)) == 0xA9 && LowOctet(Reverse(0x5e95)) == 0x7A
  {
    hide *;
    CrcOfFour(0xDA, 0xDC, 0xED, 0xED, 0xd3c5);
    SyncFirstSteps();
    SyncLastSteps();
    SyncReversed();
  }

  lemma SyncRespFirstSteps()
    ensures Step(0xAC, 0xd3c5) == 0xfe14 && Step(0xAF, 0xfe14) == 0x0ba6
  {
  }

  lemma SyncRespLastSteps()
    ensures Step(0xEF, 0x0ba6) == 0xdfce && Step(0xEE, 0xdfce) == 0x21dd
  {
  }

  lemma SyncRespReversed()
    ensures HighOctet(Reverse(0x21dd)) == 0xBB && LowOctet(Reverse(0x21dd)) == 0x84
  {
  }

  lemma SyncRespRegister()
    ensures Crc.Crc([0xAC, 0xAF, 0xEF, 0xEE], 0xd3c5) == 0x21dd
    ensures HighOctet(Reverse(0x21dd)) == 0xBB && LowOctet(Reverse(0x21dd)) == 0x84
  {
    hide *;
    CrcOfFour(0xAC, 0xAF, 0xEF, 0xEE, 0xd3c5);
    SyncRespFirstSteps();
    SyncRespLastSteps();
    SyncRespReversed();
  }

  lemma ConfFirstSteps()
    ensures Step(0xAD, 0xd3c5) == 0xef9d && Step(0xEF, 0xef9d) == 0x507a
  {
  }

  lemma ConfLastSteps()
    ensures Step(0xAC, 0x507a) == 0xb3eb && Step(0xED, 0xb3eb) == 0x6585
  {
  }

  lemma ConfReversed()
    ensures HighOctet(Reverse(0x6585)) == 0xA1 && LowOctet(Reverse(0x6585)) == 0xA6
  {
  }

  lemma ConfRegister()
    ensures Crc.Crc([0xAD, 0xEF, 0xAC, 0xED], 0xd3c5) == 0x6585
    ensures HighOctet(Reverse(0x6585)) == 0xA1 && LowOctet(Reverse(0x6585)) == 0xA6
  {
    hide *;
    CrcOfFour(0xAD, 0xEF, 0xAC, 0xED, 0xd3c5);
    ConfFirstSteps();
    ConfLastSteps();
    ConfReversed();
  }

  lemma ConfRespFirstSteps()
    ensures Step(0xDE, 0xd3c5) == 0xae81 && Step(0xAD, 0xae81) == 0xebc0
  {
  }

  lemma ConfRespLastSteps()
    ensures Step(0xD0, 0xebc0) == 0x106a && Step(0xD0, 0x106a) == 0x1ac1
  {
  }

  lemma ConfRespReversed()
    ensures HighOctet(Reverse(0x1ac1)) == 0x83 && LowOctet(Reverse(0x1ac1)) == 0x58
  {
  }

  lemma ConfRespRegister()
    ensures Crc.Crc([0xDE, 0xAD, 0xD0, 0xD0], 0xd3c5) == 0x1ac1
    ensures HighOctet(Reverse(0x1ac1)) == 0x83 && LowOctet(Reverse(0x1ac1)) == 0x58
  {
    hide *;
    CrcOfFour(0xDE, 0xAD, 0xD0, 0xD0, 0xd3c5);
    ConfRespFirstSteps();
    ConfRespLastSteps();
    ConfRespReversed();
  }

  /** The four link establishment frames as they are on the line. */
  lemma LeFramesOnTheLine()
    ensures Wire(LeFrame(SYNC)) == [0xC0, 0x40, 0x41, 0x00, 0x7E, 0xDA, 0xDC, 0xED, 0xED, 0xA9, 0x7A, 0xC0]
    ensures Wire(LeFrame(SYNC_RESP)) == [0xC0, 0x40, 0x41, 0x00, 0x7E, 0xAC, 0xAF, 0xEF, 0xEE, 0xBB, 0x84, 0xC0]
    ensures Wire(LeFrame(CONF)) == [0xC0, 0x40, 0x41, 0x00, 0x7E, 0xAD, 0xEF, 0xAC, 0xED, 0xA1, 0xA6, 0xC0]
    ensures Wire(LeFrame(CONF_RESP)) == [0xC0, 0x40, 0x41, 0x00, 0x7E, 0xDE, 0xAD, 0xD0, 0xD0, 0x83, 0x58, 0xC0]
  {
    hide Crc.Crc, Reverse, HighOctet, LowOctet, Wire, LeFrame, Slip.Encode;
    assert Wire(LeFrame(SYNC)) ==
           [0xC0, 0x40, 0x41, 0x00, 0x7E, 0xDA, 0xDC, 0xED, 0xED, 0xA9, 0x7A, 0xC0] by {
      LeWire(SYNC);
      SyncRegister();
      Plain([0x40, 0x41, 0x00, 0x7E, 0xDA, 0xDC, 0xED, 0xED, 0xA9, 0x7A]);
      assert [0x40, 0x41, 0x00, 0x7E] + LE_OCTETS[SYNC] + [0xA9, 0x7A]
          == [0x40, 0x41, 0x00, 0x7E, 0xDA, 0xDC, 0xED, 0xED, 0xA9, 0x7A];
    }
    assert Wire(LeFrame(SYNC_RESP)) ==
           [0xC0, 0x40, 0x41, 0x00, 0x7E, 0xAC, 0xAF, 0xEF, 0xEE, 0xBB, 0x84, 0xC0] by {
      LeWire(SYNC_RESP);
      SyncRespRegister();
      Plain([0x40, 0x41, 0x00, 0x7E, 0xAC, 0xAF, 0xEF, 0xEE, 0xBB, 0x84]);
      assert [0x40, 0x41, 0x00, 0x7E] + LE_OCTETS[SYNC_RESP] + [0xBB, 0x84]
          == [0x40, 0x41, 0x00, 0x7E, 0xAC, 0xAF, 0xEF, 0xEE, 0xBB, 0x84];
    }
    assert Wire(LeFrame(CONF)) ==
           [0xC0, 0x40, 0x41, 0x00, 0x7E, 0xAD, 0xEF, 0xAC, 0xED, 0xA1, 0xA6, 0xC0] by {
      LeWire(CONF);
      ConfRegister();
      Plain([0x40, 0x41, 0x00, 0x7E, 0xAD, 0xEF, 0xAC, 0xED, 0xA1, 0xA6]);
      assert [0x40, 0x41, 0x00, 0x7E] + LE_OCTETS[CONF] + [0xA1, 0xA6]
          == [0x40, 0x41, 0x00, 0x7E, 0xAD, 0xEF, 0xAC, 0xED, 0xA1, 0xA6];
    }
    assert Wire(LeFrame(CONF_RESP)) ==
           [0xC0, 0x40, 0x41, 0x00, 0x7E, 0xDE, 0xAD, 0xD0, 0xD0, 0x83, 0x58, 0xC0] by {
      LeWire(CONF_RESP);
      ConfRespRegister();
      Plain([0x40, 0x41, 0x00, 0x7E, 0xDE, 0xAD, 0xD0, 0xD0, 0x83, 0x58]);
      assert [0x40, 0x41, 0x00, 0x7E] + LE_OCTETS[CONF_RESP] + [0x83, 0x58]
          == [0x40, 0x41, 0x00, 0x7E, 0xDE, 0xAD, 0xD0, 0xD0, 0x83, 0x58];
    }
  }

  /** FRAME and ESCAPE inside a frame travel as the two sequences of RFC 1055, every other octet as itself. */
  lemma StuffedOctets(ch: Octet)
    ensures Slip.EncodeOctet(ch) == (if ch == 0xC0 then [0xDB, 0xDC] else if ch == 0xDB then [0xDB, 0xDD] else [ch])
  {
  }

  /** How many ESCAPE octets were read last. */
  function EscapesAtEnd(input: seq<Slip.Reading>): nat {
    if input == [] || input[|input| - 1].value != 0xDB then 0 else 1 + EscapesAtEnd(input[..|input| - 1])
  }

  function ReadSince(input: seq<Slip.Reading>): Slip.Decoded {
    Slip.DecodeAll(Slip.Decoded(false, []), input)
  }

  lemma OneMore(input: seq<Slip.Reading>, r: Slip.Reading)
    ensures ReadSince(input + [r]) == Slip.DecodeNext(ReadSince(input), r)
  {
    hide Slip.DecodeNext;
    Slip.DecodeSplit(Slip.Decoded(false, []), input, [r]);
    assert [r][1..] == [];
  }

  lemma {:induction false} EscapedAfter(input: seq<Slip.Reading>)
    ensures ReadSince(input).escaped <==> EscapesAtEnd(input) % 2 == 1
    decreases |input|
  {
    if input != [] {
      var front, r := input[..|input| - 1], input[|input| - 1];
      EscapedAfter(front);
      OneMore(front, r);
      assert input == front + [r];
    }
  }

  /** Any octets read since a frame boundary, and one more. After an odd number of ESCAPE octets it belongs to the frame
      whatever it is: a FRAME too, which then ends nothing. Otherwise FRAME starts a new frame, ESCAPE waits for the
      next octet, and any other octet belongs to the frame as it is. */
  lemma OctetRead(input: seq<Slip.Reading>, r: Slip.Reading)
    ensures var d, v := ReadSince(input), r.value;
            ReadSince(input + [r]) ==
              if EscapesAtEnd(input) % 2 == 1 then
                Slip.Decoded(false, d.octets + [if v == 0xDC then 0xC0 else if v == 0xDD then 0xDB else r.stray])
              else if v == 0xC0 then Slip.Decoded(false, [])
              else if v == 0xDB then Slip.Decoded(true, d.octets)
              else Slip.Decoded(false, d.octets + [v])
  {
    hide ReadSince;
    OneMore(input, r);
    EscapedAfter(input);
  }
}
