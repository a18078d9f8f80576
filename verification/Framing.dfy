/** Frames: the four-octet header with its checksum, the payload, and the two CRC octets. */
module Framing {
  import opened Crc
  import Slip

  /** The three-bit sequence and acknowledgement numbers, which wrap from 7 to 0. */
  type Count = bv3

  datatype Header = Header(reliable: bool, crc: bool, ackNo: Count, seqNo: Count, channel: Octet, length: nat)

  /** A frame of the protocol. The engine sends every frame with a CRC. */
  datatype Frame = Frame(reliable: bool, ackNo: Count, seqNo: Count, channel: Octet, payload: seq<Octet>)

  // ---------- headers ----------

  function ControlOctet(reliable: bool, crc: bool, ackNo: Count, seqNo: Count): Octet {
    (if reliable then 0x80 else 0x00) | (if crc then 0x40 else 0x00) | ((ackNo as Octet) << 3) | (seqNo as Octet)
  }

  function ChannelOctet(channel: Octet, length: nat): Octet {
    (channel & 0x0f) | ((length % 16) as Octet << 4)
  }

  function LengthOctet(length: nat): Octet {
    (length / 16 % 256) as Octet
  }

  function Checksum(h0: Octet, h1: Octet, h2: Octet): Octet {
    !(h0 + h1 + h2)
  }

  function EncodeHeader(h: Header): (s: seq<Octet>)
    ensures |s| == 4
  {
    var h0 := ControlOctet(h.reliable, h.crc, h.ackNo, h.seqNo);
    var h1, h2 := ChannelOctet(h.channel, h.length), LengthOctet(h.length);
    [h0, h1, h2, Checksum(h0, h1, h2)]
  }

  lemma MaskedTwice(channel: Octet, length: nat)
    ensures ChannelOctet(ChannelField(channel), length) == ChannelOctet(channel, length)
  {
  }

  predicate ChecksumHolds(s: seq<Octet>)
    requires |s| == 4
  {
    Sum(s[0], s[1], s[2], s[3]) == 0xff
  }

  function Sum(h0: Octet, h1: Octet, h2: Octet, h3: Octet): Octet { h0 + h1 + h2 + h3 }

  predicate ReliableField(h0: Octet) { h0 & 0x80 != 0 }

  predicate CrcField(h0: Octet) { h0 & 0x40 != 0 }

  function AckField(h0: Octet): Count { ((h0 & 0x38) >> 3) as Count }

  function SeqField(h0: Octet): Count { (h0 & 0x07) as Count }

  function ChannelField(h1: Octet): Octet { h1 & 0x0f }

  function LengthField(h1: Octet, h2: Octet): nat {
    (h1 >> 4) as nat + 16 * (h2 as nat)
  }

  function DecodeHeader(s: seq<Octet>): Header
    requires |s| == 4
  {
    Header(ReliableField(s[0]), CrcField(s[0]), AckField(s[0]), SeqField(s[0]),
           ChannelField(s[1]), LengthField(s[1], s[2]))
  }

  lemma SumUnfolds(h0: Octet, h1: Octet, h2: Octet, h3: Octet)
    ensures Sum(h0, h1, h2, h3) == h0 + h1 + h2 + h3
  {
  }

  lemma ChecksumUnfolds(h0: Octet, h1: Octet, h2: Octet)
    ensures Checksum(h0, h1, h2) == !(h0 + h1 + h2)
  {
  }

  lemma SumRotates(h0: Octet, h1: Octet, h2: Octet, h3: Octet)
    ensures h0 + h1 + h2 + h3 == h3 + h0 + h1 + h2
  {
  }

  lemma FirstCompletes(h0: Octet, h1: Octet, h2: Octet, h3: Octet)
    ensures h0 + h1 + h2 + h3 == 0xff <==> h0 == !(h1 + h2 + h3)
  {
  }

  /** The checksum is the one octet that completes the other three, in front of them as well as behind them. */
  lemma ChecksumCompletes(h0: Octet, h1: Octet, h2: Octet, h3: Octet)
    ensures Sum(h0, h1, h2, h3) == 0xff <==> h3 == Checksum(h0, h1, h2)
    ensures Sum(h0, h1, h2, h3) == 0xff <==> h0 == Checksum(h1, h2, h3)
  {
    hide *;
    SumUnfolds(h0, h1, h2, h3);
    ChecksumUnfolds(h0, h1, h2);
    ChecksumUnfolds(h1, h2, h3);
    SumRotates(h0, h1, h2, h3);
    FirstCompletes(h0, h1, h2, h3);
    FirstCompletes(h3, h0, h1, h2);
  }

  lemma ControlFields(reliable: bool, crc: bool, ackNo: Count, seqNo: Count)
    ensures var h0 := ControlOctet(reliable, crc, ackNo, seqNo);
            ReliableField(h0) == reliable && CrcField(h0) == crc && AckField(h0) == ackNo && SeqField(h0) == seqNo
  {
  }

  lemma NibbleField(n: Octet, channel: Octet)
    requires n < 16
    ensures ((channel & 0x0f) | (n << 4)) >> 4 == n
    ensures ((channel & 0x0f) | (n << 4)) & 0x0f == channel & 0x0f
  {
  }

  lemma OctetOfNat(n: nat)
    requires n < 256
    ensures (n as Octet) as nat == n
    ensures n < 16 ==> n as Octet < 16
  {
  }

  lemma LengthFields(length: nat, channel: Octet)
    requires length <= 4095
    ensures LengthField(ChannelOctet(channel, length), LengthOctet(length)) == length
    ensures ChannelField(ChannelOctet(channel, length)) == channel & 0x0f
  {
    OctetOfNat(length / 16);
    OctetOfNat(length % 16);
    NibbleField((length % 16) as Octet, channel);
  }

  /** What the sender packs into a header, the receiver unpacks, for every length the field can hold. */
  lemma HeaderRoundTrip(h: Header)
    requires h.length <= 4095
    ensures ChecksumHolds(EncodeHeader(h))
    ensures DecodeHeader(EncodeHeader(h)) == h.(channel := h.channel & 0x0f)
  {
    hide ControlOctet, ChannelOctet, LengthOctet, Checksum, Sum;
    hide ReliableField, CrcField, AckField, SeqField, ChannelField, LengthField;
    var s := EncodeHeader(h);
    ChecksumCompletes(s[0], s[1], s[2], s[3]);
    ControlFields(h.reliable, h.crc, h.ackNo, h.seqNo);
    LengthFields(h.length, h.channel);
  }

  // ---------- whole frames ----------

  function HeaderOf(f: Frame): Header {
    Header(f.reliable, true, f.ackNo, f.seqNo, f.channel, |f.payload|)
  }

  function HighOctet(r: Register): Octet { (r >> 8) as Octet }

  function LowOctet(r: Register): Octet { (r & 0x00ff) as Octet }

  /** The two CRC octets of a message: the register reversed, high octet first. */
  function CrcOctets(message: seq<Octet>): (s: seq<Octet>)
    ensures |s| == 2
  {
    var c := Reverse(Crc.Crc(message, PRESET));
    [HighOctet(c), LowOctet(c)]
  }

  /** What the CRC covers. */
  function Message(f: Frame): seq<Octet> {
    EncodeHeader(HeaderOf(f)) + f.payload
  }

  /** The octets of a frame before stuffing. */
  function Body(f: Frame): seq<Octet> {
    Message(f) + CrcOctets(Message(f))
  }

  /** The octets of a frame on the line. */
  function Wire(f: Frame): seq<Octet> {
    [Slip.FRAME] + Slip.Encode(Body(f)) + [Slip.FRAME]
  }

  /** The receiver's integrity checks on the header it collected and the octets it stored after it:
      header checksum, length field against the number stored, and the CRC if the header announces one. */
  predicate Intact(header: seq<Octet>, stored: seq<Octet>)
    requires |header| == 4
  {
    var h := DecodeHeader(header);
    && ChecksumHolds(header)
    && (if h.crc then
          |stored| == h.length + 2 && stored[h.length..] == CrcOctets(header + stored[..h.length])
        else
          |stored| == h.length)
  }

  function PayloadOf(header: seq<Octet>, stored: seq<Octet>): seq<Octet>
    requires |header| == 4 && Intact(header, stored)
  {
    stored[..DecodeHeader(header).length]
  }

  /** What a sender builds passes every check of the receiver and comes apart into the same fields. */
  lemma BodyIsIntact(f: Frame)
    requires |f.payload| <= 4095
    ensures var header, stored := Body(f)[..4], Body(f)[4..];
            && Intact(header, stored)
            && DecodeHeader(header) == HeaderOf(f).(channel := f.channel & 0x0f)
            && PayloadOf(header, stored) == f.payload
            && |stored| == |f.payload| + 2
  {
    hide EncodeHeader, DecodeHeader, ChecksumHolds, CrcOctets;
    HeaderRoundTrip(HeaderOf(f));
    var header, stored := Body(f)[..4], Body(f)[4..];
    assert header == EncodeHeader(HeaderOf(f));
    assert stored == f.payload + CrcOctets(Message(f));
    assert stored[..|f.payload|] == f.payload && stored[|f.payload|..] == CrcOctets(Message(f));
  }

  lemma OctetsDetermineRegister(r: Register, s: Register)
    requires HighOctet(r) == HighOctet(s) && LowOctet(r) == LowOctet(s)
    ensures r == s
  {
  }

  lemma CrcOctetsInjective(a: seq<Octet>, b: seq<Octet>)
    requires CrcOctets(a) == CrcOctets(b)
    ensures Crc.Crc(a, PRESET) == Crc.Crc(b, PRESET)
  {
    hide HighOctet, LowOctet, Reverse;
    var r, s := Crc.Crc(a, PRESET), Crc.Crc(b, PRESET);
    assert CrcOctets(a)[0] == CrcOctets(b)[0] && CrcOctets(a)[1] == CrcOctets(b)[1];
    OctetsDetermineRegister(Reverse(r), Reverse(s));
    ReverseIsAnInvolution(r);
    ReverseIsAnInvolution(s);
  }

  /** The transmission errors the CRC is there for: a burst of at most sixteen bits, or an odd number of bits. */
  ghost predicate Damaged(sent: seq<Octet>, received: seq<Octet>) {
    && |sent| == |received|
    && sent != received
    && (DifferInBurst(BitsOf(sent), BitsOf(received)) || Errors(BitsOf(sent), BitsOf(received)) % 2 == 1)
  }

  /** A frame with a CRC whose header and payload were damaged on the way, and whose CRC octets were not, is
      never accepted as long as the damage left the header's CRC flag set. */
  lemma DamageIsDetected(header: seq<Octet>, payload: seq<Octet>, header': seq<Octet>, payload': seq<Octet>)
    requires |header| == |header'| == 4 && |payload| == |payload'|
    requires Damaged(header + payload, header' + payload')
    requires DecodeHeader(header').crc
    ensures !Intact(header', payload' + CrcOctets(header + payload))
  {
    hide CrcOctets, DecodeHeader, BitsOf, Errors;
    var stored := payload' + CrcOctets(header + payload);
    if Intact(header', stored) {
      assert stored[..|payload'|] == payload' && stored[|payload'|..] == CrcOctets(header + payload);
      CrcOctetsInjective(header + payload, header' + payload');
      if DifferInBurst(BitsOf(header + payload), BitsOf(header' + payload')) {
        BurstDetected(PRESET, header + payload, header' + payload');
      } else {
        OddErrorsDetected(PRESET, header + payload, header' + payload');
      }
    }
  }
}
