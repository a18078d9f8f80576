/** What the engine makes of the octets on the line: the header and payload it collects are those of the current
    frame whatever came before and however the octets are spread over polls, and a frame is handed to the link
    exactly when it is intact. */
module FrameReception {
  import opened Crc
  import opened Framing
  import opened FrameLevel
  import opened EngineSpec
  import opened Transmission
  import Slip

  // ---------- collecting a frame ----------

  /** How far the index gets after n octets of a frame: the header counts from -4, and what does not fit into
      the capacity is not counted. */
  function Fitting(n: nat, capacity: nat): int {
    if n - 4 <= capacity then n - 4 else capacity
  }

  /** The receiver has stored exactly the longest fitting prefix of the current frame. */
  predicate Collects(rx: Rx, c: Slip.Decoded) {
    && ValidRx(rx) && rx.escaped == c.escaped
    && match rx.buffer
       case None => c.octets == []
       case Some(b) =>
         var n := |c.octets|;
         && rx.index == Fitting(n, b.capacity)
         && (if n < 4 then rx.header[..n] == c.octets
             else rx.header == c.octets[..4] && b.octets[..rx.index] == c.octets[4..4 + rx.index])
  }

  lemma StoreInHeader(rx: Rx, octets: seq<Octet>, ch: Octet)
    requires Collects(rx, Slip.Decoded(rx.escaped, octets)) && rx.buffer.Some? && |octets| < 4
    ensures Collects(Store(rx, ch), Slip.Decoded(rx.escaped, octets + [ch]))
  {
    var n := |octets|;
    var c := octets + [ch];
    var rx' := Store(rx, ch);
    assert rx'.header[..n + 1] == rx.header[..n] + [ch];
    if n == 3 {
      assert rx'.header == rx'.header[..4] == c == c[..4];
      assert rx'.buffer.value.octets[..0] == c[4..4];
    }
  }

  lemma StoreInBuffer(rx: Rx, octets: seq<Octet>, ch: Octet)
    requires Collects(rx, Slip.Decoded(rx.escaped, octets)) && rx.buffer.Some? && |octets| >= 4
    ensures Collects(Store(rx, ch), Slip.Decoded(rx.escaped, octets + [ch]))
  {
    var c := octets + [ch];
    var i := rx.index;
    assert c[..4] == octets[..4];
    if i < rx.buffer.value.capacity {
      var b' := rx.buffer.value.octets[i := ch];
      assert b'[..i + 1] == rx.buffer.value.octets[..i] + [ch];
      assert c[4..4 + i + 1] == octets[4..4 + i] + [ch];
    } else {
      assert c[4..4 + i] == octets[4..4 + i];
    }
  }

  lemma ReceiveOctetCollects(s: State, r: Slip.Reading, c: Slip.Decoded)
    requires ValidState(s) && s.rx.buffer.Some? && Collects(s.rx, c)
    ensures Collects(ReceiveOctet(s, r).state.rx, Slip.DecodeNext(c, r))
  {
    hide Store, BoundaryReception, Slip.Deslip;
    ReceiveOctetIsValid(s, r);
    match Slip.Decode(c.escaped, r)
    case Plain(ch) =>
      if |c.octets| < 4 {
        StoreInHeader(s.rx, c.octets, ch);
      } else {
        StoreInBuffer(s.rx, c.octets, ch);
      }
    case Escaping =>
    case Boundary => BoundaryIsValid(s);
  }

  /** What a reception has taken from the input. */
  function Taken(input: seq<Slip.Reading>, rest: seq<Slip.Reading>): seq<Slip.Reading> {
    if |rest| <= |input| then input[..|input| - |rest|] else []
  }

  predicate Reads(input: seq<Slip.Reading>, rest: seq<Slip.Reading>) {
    |rest| <= |input| && input == Taken(input, rest) + rest
  }

  lemma TakenTwice(pending: seq<Slip.Reading>, first: seq<Slip.Reading>, later: seq<Slip.Reading>,
                   middle: seq<Slip.Reading>, rest: seq<Slip.Reading>)
    requires Reads(pending + first, middle) && Reads(middle + later, rest)
    ensures Reads(pending + (first + later), rest)
    ensures Taken(pending + (first + later), rest) == Taken(pending + first, middle) + Taken(middle + later, rest)
  {
    var t, u := Taken(pending + first, middle), Taken(middle + later, rest);
    assert pending + (first + later) == (pending + first) + later == t + (middle + later) == (t + u) + rest;
  }

  lemma TakenFirst(input: seq<Slip.Reading>, rest: seq<Slip.Reading>)
    requires input != [] && Reads(input[1..], rest)
    ensures Reads(input, rest) && Taken(input, rest) == [input[0]] + Taken(input[1..], rest)
  {
    assert input == [input[0]] + input[1..];
  }

  lemma DecodeFirst(c: Slip.Decoded, r: Slip.Reading, rest: seq<Slip.Reading>)
    ensures Slip.DecodeAll(c, [r] + rest) == Slip.DecodeAll(Slip.DecodeNext(c, r), rest)
  {
    hide Slip.DecodeNext;
    assert ([r] + rest)[1..] == rest;
  }

  lemma {:induction false} ReceiveCollects(s: State, input: seq<Slip.Reading>, c: Slip.Decoded)
    requires ValidState(s) && Collects(s.rx, c)
    ensures var r := Receive(s, input);
            && Reads(input, r.rest)
            && ValidState(r.state) && Collects(r.state.rx, Slip.DecodeAll(c, Taken(input, r.rest)))
    decreases input
  {
    hide Receive, ReceiveOctet, ValidState, Collects, Reads, Taken, Slip.DecodeNext, Slip.DecodeAll;
    if s.rx.buffer.Some? && input != [] {
      var p := ReceiveOctet(s, input[0]);
      ReceiveFirst(s, input);
      ReceiveOctetCollects(s, input[0], c);
      ReceiveCollects(p.state, input[1..], Slip.DecodeNext(c, input[0]));
      var rest := Receive(p.state, input[1..]).rest;
      TakenFirst(input, rest);
      DecodeFirst(c, input[0], Taken(input[1..], rest));
    } else {
      ReadNothing(s, input);
      NothingTaken(input);
      NothingDecoded(c);
    }
  }

  function Flatten(arrivals: seq<seq<Slip.Reading>>): seq<Slip.Reading> {
    if arrivals == [] then [] else arrivals[0] + Flatten(arrivals[1..])
  }

  /** The buffer invariant over every run of polls: whatever arrives, and however it is spread over polls, the
      receiver has stored the longest fitting prefix of the frame that is being read; its index stays between
      -4 and the capacity, and nothing is read while there is no packet to receive into. */
  lemma {:induction false} PollsCollect(l: Line, arrivals: seq<seq<Slip.Reading>>, c: Slip.Decoded)
    requires ValidState(l.state) && Collects(l.state.rx, c)
    ensures var m := Polls(l, arrivals).line;
            var input := l.pending + Flatten(arrivals);
            && Reads(input, m.pending)
            && Collects(m.state.rx, Slip.DecodeAll(c, Taken(input, m.pending)))
            && -4 <= m.state.rx.index
            && (m.state.rx.buffer.Some? && m.state.rx.index >= 0 ==>
                  m.state.rx.index <= m.state.rx.buffer.value.capacity)
    decreases arrivals
  {
    hide Poll, ValidState, Collects, Reads, Taken, Slip.DecodeAll;
    if arrivals == [] {
      assert l.pending + Flatten([]) == l.pending;
      NothingTaken(l.pending);
      NothingDecoded(c);
      CollectsIsValid(l.state.rx, c);
    } else {
      var read := l.pending + arrivals[0];
      PollIsValid(l.state, read);
      PollCollects(l, arrivals[0], c);
      var l1 := PollLine(l, arrivals[0]);
      var c1 := Slip.DecodeAll(c, Taken(read, l1.pending));
      PollsCollect(l1, arrivals[1..], c1);
      var m := Polls(l1, arrivals[1..]).line;
      TakenTwice(l.pending, arrivals[0], Flatten(arrivals[1..]), l1.pending, m.pending);
      Slip.DecodeSplit(c, Taken(read, l1.pending), Taken(l1.pending + Flatten(arrivals[1..]), m.pending));
    }
  }

  lemma NothingTaken(input: seq<Slip.Reading>)
    ensures Reads(input, input) && Taken(input, input) == []
  {
  }

  lemma NothingDecoded(c: Slip.Decoded)
    ensures Slip.DecodeAll(c, []) == c
  {
  }

  lemma CollectsIsValid(rx: Rx, c: Slip.Decoded)
    requires Collects(rx, c)
    ensures -4 <= rx.index && (rx.buffer.Some? && rx.index >= 0 ==> rx.index <= rx.buffer.value.capacity)
  {
  }

  lemma PollCollects(l: Line, arrived: seq<Slip.Reading>, c: Slip.Decoded)
    requires ValidState(l.state) && Collects(l.state.rx, c)
    ensures var m, input := PollLine(l, arrived), l.pending + arrived;
            && Reads(input, m.pending)
            && Collects(m.state.rx, Slip.DecodeAll(c, Taken(input, m.pending)))
  {
    hide Transmit, Receive, Collects, ValidTx, Slip.DecodeAll;
    TransmitIsValid(l.state);
    var t := TransmitIfDue(l.state);
    var input := l.pending + arrived;
    if t.early {
      NothingTaken(input);
      NothingDecoded(c);
    } else {
      ReceiveCollects(t.state, input, c);
    }
  }

  // ---------- the verdict on a frame ----------

  /** What the receiver keeps of a frame with these octets: the header, and what fits after it. */
  function Kept(octets: seq<Octet>, capacity: nat): seq<Octet>
    requires |octets| >= 4
  {
    octets[4..4 + Fitting(|octets|, capacity)]
  }

  function SeenWith(h: Header, le: nat): Seen {
    Seen(h.reliable, h.ackNo, h.seqNo, h.channel, h.length != 0, le)
  }

  /** At a FRAME octet: an incomplete header is dropped without a trace; a frame that fails a check requests an
      acknowledgement and changes nothing else, neither the numbers, nor the link state, nor the packets
      pending; a frame that passes goes to the link, and to nothing else, with the fields of its header. */
  lemma Verdict(s: State, c: Slip.Decoded)
    requires ValidState(s) && s.rx.buffer.Some? && Collects(s.rx, c)
    ensures var p, capacity := BoundaryReception(s), s.rx.buffer.value.capacity;
            var ended := s.rx.(index := -4);
            if |c.octets| < 4 then p == Reception(s.(rx := ended), QUIET, None, [])
            else
              var header, stored := c.octets[..4], Kept(c.octets, capacity);
              if !Intact(header, stored) then
                p == Reception(s.(link := s.link.(sendAck := true), rx := ended), QUIET, None, [Rejected])
              else
                var h := DecodeHeader(header);
                var le := WhichLe(s.rx.buffer.value.octets);
                var seen := SeenWith(h, le);
                var e := Accept(s.link, seen);
                && p.actions == [Accepted(seen)] && p.state.link == e.link && p.activity == e.activity
                && p.state.tx == (if e.cut then Idle(s.tx) else s.tx)
                && p.delivered == (if e.delivered then Some(Packet(h.channel, h.reliable, PayloadOf(header, stored)))
                                   else None)
                && (4 <= |stored| ==> le == WhichLe(stored))
  {
    hide Intact, Accept, DecodeHeader, Slip.Decode;
    if |c.octets| >= 4 {
      assert s.rx.header == c.octets[..4];
      assert Stored(s.rx) == Kept(c.octets, s.rx.buffer.value.capacity);
      if Intact(s.rx.header, Stored(s.rx)) {
        var le := WhichLe(s.rx.buffer.value.octets);
        if 4 <= |Stored(s.rx)| {
          assert Stored(s.rx)[..4] == s.rx.buffer.value.octets[..4];
        }
        assert Collected(s.rx) == SeenWith(DecodeHeader(s.rx.header), le);
      }
    }
  }

  /** A frame as the engine builds them: its length fits the length field, its channel the channel field, and a
      link establishment frame has the payload to tell which one it is. */
  predicate WellFormed(f: Frame) {
    && |f.payload| <= 4095
    && ChannelField(f.channel) == f.channel
    && (f.channel == LE_CHANNEL ==> |f.payload| >= 4)
  }

  lemma AcceptIgnoresLe(l: Link, a: Seen, b: Seen)
    requires a == b.(le := a.le) && a.channel != LE_CHANNEL
    ensures Accept(l, a) == Accept(l, b)
  {
  }

  lemma WhichLeOfPrefix(a: seq<Octet>, b: seq<Octet>)
    requires 4 <= |a| && a <= b
    ensures WhichLe(a) == WhichLe(b)
  {
    assert a[..4] == b[..4];
  }

  /** A frame that arrives undamaged reaches the link exactly as it was sent if it fits the host's buffer with
      its two CRC octets, and is refused if it does not. The frame being sent is abandoned exactly if the link says
      so. */
  lemma ArrivedFrame(s: State, f: Frame)
    requires ValidState(s) && s.rx.buffer.Some? && Collects(s.rx, Slip.Decoded(false, Body(f)))
    requires WellFormed(f)
    ensures var p, e := BoundaryReception(s), Accept(s.link, See(f));
            if |f.payload| + 2 <= s.rx.buffer.value.capacity then
              && p.state.link == e.link && p.activity == e.activity
              && p.delivered == (if e.delivered then Some(Packet(f.channel, f.reliable, f.payload)) else None)
              && p.state.tx == (if e.cut then Idle(s.tx) else s.tx)
              && |p.actions| == 1 && p.actions[0].Accepted? && Accept(s.link, p.actions[0].seen) == e
            else
              && p.state.link == Reject(s.link) && p.activity == QUIET && p.delivered == None
              && p.state.tx == s.tx && p.actions == [Rejected]
  {
    hide Intact, Accept, DecodeHeader, WhichLe, Collects, Body, BoundaryReception, PayloadOf;
    var capacity := s.rx.buffer.value.capacity;
    Verdict(s, Slip.Decoded(false, Body(f)));
    BodyIsIntact(f);
    BodyLength(f);
    var header, stored := Body(f)[..4], Body(f)[4..];
    if |f.payload| + 2 <= capacity {
      assert Kept(Body(f), capacity) == stored;
      PayloadIsPrefix(header, stored);
      SeenIsSee(s.link, f, stored, WhichLe(s.rx.buffer.value.octets));
    } else {
      TooLong(f, capacity);
    }
  }

  lemma PayloadIsPrefix(header: seq<Octet>, stored: seq<Octet>)
    requires |header| == 4 && Intact(header, stored)
    ensures PayloadOf(header, stored) <= stored
  {
  }

  lemma BodyLength(f: Frame)
    ensures |Body(f)| == |f.payload| + 6
  {
  }

  lemma TooLong(f: Frame, capacity: nat)
    requires |f.payload| <= 4095 && capacity < |f.payload| + 2
    ensures |Body(f)| == |f.payload| + 6
    ensures !Intact(Body(f)[..4], Kept(Body(f), capacity))
  {
    hide DecodeHeader, CrcOctets, EncodeHeader, ChecksumHolds;
    BodyIsIntact(f);
    BodyLength(f);
    assert |Kept(Body(f), capacity)| == capacity;
  }

  /** A frame without a CRC, as a peer may send it. */
  function PlainHeader(f: Frame): Header {
    HeaderOf(f).(crc := false)
  }

  lemma PlainIsIntact(f: Frame, stored: seq<Octet>)
    requires WellFormed(f)
    ensures Intact(EncodeHeader(PlainHeader(f)), stored) <==> |stored| == |f.payload|
    ensures DecodeHeader(EncodeHeader(PlainHeader(f))) == PlainHeader(f)
  {
    hide EncodeHeader, DecodeHeader, ChecksumHolds, CrcOctets;
    HeaderRoundTrip(PlainHeader(f));
  }

  /** It reaches the link as it was sent if its payload fits the host's buffer, to the last octet; and if it does not,
      it is refused. */
  lemma PlainFrameArrives(s: State, f: Frame)
    requires ValidState(s) && s.rx.buffer.Some? && WellFormed(f)
    requires Collects(s.rx, Slip.Decoded(false, EncodeHeader(PlainHeader(f)) + f.payload))
    ensures var p, e := BoundaryReception(s), Accept(s.link, See(f));
            if |f.payload| <= s.rx.buffer.value.capacity then
              && p.state.link == e.link && p.activity == e.activity
              && p.delivered == (if e.delivered then Some(Packet(f.channel, f.reliable, f.payload)) else None)
            else
              p.state.link == Reject(s.link) && p.activity == QUIET && p.delivered == None
  {
    hide Intact, Accept, DecodeHeader, WhichLe, Collects, BoundaryReception, PayloadOf, EncodeHeader, WellFormed;
    var header := EncodeHeader(PlainHeader(f));
    var octets := header + f.payload;
    Verdict(s, Slip.Decoded(false, octets));
    assert octets[..4] == header;
    var stored := Kept(octets, s.rx.buffer.value.capacity);
    PlainIsIntact(f, stored);
    if |f.payload| <= s.rx.buffer.value.capacity {
      assert stored == f.payload;
      PayloadIsPrefix(header, stored);
      PlainPayload(header, stored);
      SeenIsSee(s.link, f, stored, WhichLe(s.rx.buffer.value.octets));
    }
  }

  lemma PlainPayload(header: seq<Octet>, stored: seq<Octet>)
    requires |header| == 4 && Intact(header, stored) && DecodeHeader(header).length == |stored|
    ensures PayloadOf(header, stored) == stored
  {
    hide DecodeHeader, ChecksumHolds, CrcOctets;
  }

  /** Whichever link establishment payload the receiver finds in its buffer, it makes of the frame what the frame
      says. */
  lemma SeenIsSee(l: Link, f: Frame, stored: seq<Octet>, le: nat)
    requires WellFormed(f) && f.payload <= stored
    requires 4 <= |stored| ==> le == WhichLe(stored)
    ensures Accept(l, Seen(f.reliable, f.ackNo, f.seqNo, f.channel, |f.payload| != 0, le)) == Accept(l, See(f))
  {
    hide Accept, WhichLe;
    var seen := Seen(f.reliable, f.ackNo, f.seqNo, f.channel, |f.payload| != 0, le);
    if f.channel == LE_CHANNEL {
      WhichLeOfPrefix(f.payload, stored);
      assert seen == See(f);
    } else {
      AcceptIgnoresLe(l, seen, See(f));
    }
  }

  /** A frame damaged on the way, in a burst of at most sixteen bits or in an odd number of bits of its header
      and payload, is refused, unless the damage hit the header's CRC flag: all it does is to ask for an
      acknowledgement. */
  lemma DamagedFrame(s: State, f: Frame, header: seq<Octet>, payload: seq<Octet>)
    requires ValidState(s) && s.rx.buffer.Some? && |f.payload| + 2 <= s.rx.buffer.value.capacity
    requires |header| == 4 && |payload| == |f.payload|
    requires Damaged(Message(f), header + payload) && DecodeHeader(header).crc
    requires Collects(s.rx, Slip.Decoded(false, header + payload + CrcOctets(Message(f))))
    ensures BoundaryReception(s).state.link == s.link.(sendAck := true)
    ensures BoundaryReception(s).delivered.None? && BoundaryReception(s).activity == QUIET
  {
    hide Intact, Accept, DecodeHeader, WhichLe, Collects, BoundaryReception, CrcOctets, EncodeHeader, Damaged;
    var octets := header + payload + CrcOctets(Message(f));
    Verdict(s, Slip.Decoded(false, octets));
    assert octets[..4] == header;
    assert Kept(octets, s.rx.buffer.value.capacity) == payload + CrcOctets(Message(f));
    DamageIsDetected(EncodeHeader(HeaderOf(f)), f.payload, header, payload);
  }

  // ---------- from the first FRAME to the last ----------

  lemma {:induction false} ReceiveConcat(s: State, a: seq<Slip.Reading>, b: seq<Slip.Reading>)
    requires ValidState(s) && Receive(s, a).rest == []
    ensures ValidState(Receive(s, a).state)
    ensures var r := Receive(s, a);
            var t := Receive(r.state, b);
            Receive(s, a + b) == Reading(t.state, t.rest, r.activity.Or(t.activity),
                                         if r.delivered.Some? then r.delivered else t.delivered, r.actions + t.actions)
    decreases a
  {
    hide Receive, ReceiveOctet, ValidState;
    ReceiveIsValid(s, a);
    if a == [] {
      assert a + b == b;
      ReadNothing(s, a);
      var t := Receive(s, b);
      assert [] + t.actions == t.actions;
      assert QUIET.Or(t.activity) == t.activity;
    } else if s.rx.buffer.None? {
      ReadNothing(s, a);
    } else {
      var p := ReceiveOctet(s, a[0]);
      ReceiveFirst(s, a);
      ReceiveFirst(s, a + b);
      ReceiveConcat(p.state, a[1..], b);
      assert (a + b)[0] == a[0] && (a + b)[1..] == a[1..] + b;
      var r := Receive(p.state, a[1..]);
      var t := Receive(r.state, b);
      assert p.actions + (r.actions + t.actions) == (p.actions + r.actions) + t.actions;
    }
  }

  predicate NoFrameOctet(input: seq<Slip.Reading>) {
    forall i :: 0 <= i < |input| ==> input[i].value != Slip.FRAME
  }

  /** Between FRAME octets only the receiver changes. */
  lemma {:induction false} ReceiveInside(s: State, input: seq<Slip.Reading>)
    requires ValidState(s) && s.rx.buffer.Some? && NoFrameOctet(input)
    ensures var r := Receive(s, input);
            && r == Reading(s.(rx := r.state.rx), [], QUIET, None, [])
            && r.state.rx.buffer.Some? && r.state.rx.buffer.value.capacity == s.rx.buffer.value.capacity
    decreases input
  {
    hide ValidState, BoundaryReception;
    if input != [] {
      InsideOctet(s, input[0]);
      ReceiveInside(ReceiveOctet(s, input[0]).state, input[1..]);
    }
  }

  lemma InsideOctet(s: State, r: Slip.Reading)
    requires ValidState(s) && s.rx.buffer.Some? && r.value != Slip.FRAME
    ensures var p := ReceiveOctet(s, r);
            && ValidState(p.state) && p == Reception(s.(rx := p.state.rx), QUIET, None, [])
            && p.state.rx.buffer.Some? && p.state.rx.buffer.value.capacity == s.rx.buffer.value.capacity
  {
    hide BoundaryReception, ValidTx;
    ReceiveOctetIsValid(s, r);
  }

  lemma ReceiveOne(s: State, r: Slip.Reading)
    requires ValidState(s) && s.rx.buffer.Some?
    ensures var p := ReceiveOctet(s, r);
            Receive(s, [r]) == Reading(p.state, [], p.activity, p.delivered, p.actions)
  {
    hide ReceiveOctet, ValidState;
    ReceiveOctetIsValid(s, r);
    assert [r][1..] == [];
    var p := ReceiveOctet(s, r);
    assert Receive(p.state, []) == Reading(p.state, [], QUIET, None, []);
    assert p.actions + [] == p.actions;
  }

  /** The last piece of a frame. Whatever was received before it, in this poll or in earlier ones, if the octets
      collected and those still to come make up an undamaged frame, then the closing FRAME hands that frame to
      the link as it is at that moment; the packet delivered, if any, is the one in the frame. */
  lemma FrameCompletes(s: State, c: Slip.Decoded, rest: seq<Slip.Reading>, last: Slip.Reading, f: Frame)
    requires ValidState(s) && s.rx.buffer.Some? && Collects(s.rx, c)
    requires NoFrameOctet(rest) && last.value == Slip.FRAME
    requires Slip.DecodeAll(c, rest) == Slip.Decoded(false, Body(f))
    requires WellFormed(f) && |f.payload| + 2 <= s.rx.buffer.value.capacity
    ensures var r, e := Receive(s, rest + [last]), Accept(s.link, See(f));
            && r.rest == [] && r.state.link == e.link && r.activity == e.activity
            && r.delivered == (if e.delivered then Some(Packet(f.channel, f.reliable, f.payload)) else None)
            && r.state.tx == (if e.cut then Idle(s.tx) else s.tx)
            && r.state.rx.index == -4 && !r.state.rx.escaped
  {
    hide Accept, Collects, BoundaryReception, Body, Slip.DecodeAll, Receive, WellFormed;
    ReceiveCollects(s, rest, c);
    ReceiveInside(s, rest);
    assert Taken(rest, []) == rest;
    var t := Receive(s, rest).state;
    CollectsEscape(t.rx, Slip.Decoded(false, Body(f)));
    ArrivedFrame(t, f);
    BoundaryIsValid(t);
    ReceiveOne(t, last);
    ReceiveConcat(s, rest, [last]);
  }

  lemma CollectsEscape(rx: Rx, c: Slip.Decoded)
    requires Collects(rx, c)
    ensures rx.escaped == c.escaped
  {
  }

  lemma WireParts(input: seq<Slip.Reading>, f: Frame)
    requires Slip.Carries(input, Wire(f))
    ensures var n := |input| - 1;
            && n >= 1 && input[0].value == Slip.FRAME && input[n].value == Slip.FRAME
            && Slip.Carries(input[1..n], Slip.Encode(Body(f)))
            && NoFrameOctet(input[1..n])
            && input == [input[0]] + (input[1..n] + [input[n]])
  {
    hide Body;
    var e := Slip.Encode(Body(f));
    Slip.EncodeIsTransparent(Body(f));
    assert |Wire(f)| == |e| + 2;
    forall i | 0 <= i < |e| ensures input[1..|input| - 1][i].value == e[i] {
      assert Wire(f)[i + 1] == e[i];
    }
  }

  lemma FirstFrameOctet(s: State, r: Slip.Reading)
    requires ValidState(s) && s.rx.buffer.Some? && s.rx.index < 0 && !s.rx.escaped && r.value == Slip.FRAME
    ensures var p := ReceiveOctet(s, r);
            && p == Reception(s.(rx := s.rx.(index := -4)), QUIET, None, [])
            && ValidState(p.state) && Collects(p.state.rx, Slip.Decoded(false, []))
  {
  }

  lemma FrameArrives(s: State, f: Frame, input: seq<Slip.Reading>)
    requires Slip.Carries(input, Wire(f)) && WellFormed(f)
    requires ValidState(s) && s.rx.buffer.Some? && s.rx.index < 0 && !s.rx.escaped
    requires |f.payload| + 2 <= s.rx.buffer.value.capacity
    ensures var r, e := Receive(s, input), Accept(s.link, See(f));
            && r.rest == [] && r.state.link == e.link && r.activity == e.activity
            && r.delivered == (if e.delivered then Some(Packet(f.channel, f.reliable, f.payload)) else None)
            && r.state.tx == (if e.cut then Idle(s.tx) else s.tx)
            && r.state.rx.index == -4 && !r.state.rx.escaped
  {
    hide Accept, Collects, ReceiveOctet, Receive, Wire, Body, WellFormed, Slip.DecodeAll, Slip.Encode, NoFrameOctet;
    var n := |input| - 1;
    WireParts(input, f);
    FirstFrameOctet(s, input[0]);
    ReceiveOne(s, input[0]);
    var s1 := ReceiveOctet(s, input[0]).state;
    Slip.DecodeEncode([], Body(f), input[1..n]);
    assert [] + Body(f) == Body(f);
    FrameCompletes(s1, Slip.Decoded(false, []), input[1..n], input[n], f);
    ReceiveConcat(s, [input[0]], input[1..n] + [input[n]]);
  }

  // ---------- over the receiver's own polls ----------

  /** The input still to come completes the frame f: all of its octets, or, once its opening FRAME has been read, those
      that add up to it with what has been collected. */
  ghost predicate Coming(rx: Rx, begun: bool, c: Slip.Decoded, input: seq<Slip.Reading>, f: Frame) {
    if begun then
      var n := |input| - 1;
      && n >= 0 && Collects(rx, c) && NoFrameOctet(input[..n]) && input[n].value == Slip.FRAME
      && Slip.DecodeAll(c, input[..n]) == Slip.Decoded(false, Body(f))
    else
      rx.index < 0 && !rx.escaped && Slip.Carries(input, Wire(f))
  }

  /** There is a packet to receive into, with room for the frame. */
  predicate Room(rx: Rx, f: Frame) {
    rx.buffer.Some? && |f.payload| + 2 <= rx.buffer.value.capacity
  }

  lemma ReadInside(s: State, c: Slip.Decoded, read: seq<Slip.Reading>, later: seq<Slip.Reading>, f: Frame)
    requires ValidState(s) && Room(s.rx, f) && Coming(s.rx, true, c, read + later, f) && later != []
    ensures var r := Receive(s, read);
            && r == Reading(s.(rx := r.state.rx), [], QUIET, None, []) && ValidState(r.state) && Room(r.state.rx, f)
            && Coming(r.state.rx, true, Slip.DecodeAll(c, read), later, f)
  {
    hide Receive, ValidState, Collects, Slip.DecodeAll, Body;
    var n := |read + later| - 1;
    var m := |later| - 1;
    assert (read + later)[..n] == read + later[..m] && (read + later)[n] == later[m];
    assert NoFrameOctet(read) by { forall i | 0 <= i < |read| ensures read[i] == (read + later)[..n][i] {} }
    assert NoFrameOctet(later[..m]) by {
      forall i | 0 <= i < m ensures later[..m][i] == (read + later)[..n][|read| + i] {}
    }
    ReceiveIsValid(s, read);
    ReceiveInside(s, read);
    ReceiveCollects(s, read, c);
    assert Taken(read, []) == read;
    Slip.DecodeSplit(c, read, later[..m]);
  }

  /** The opening FRAME changes nothing but the index. */
  lemma OpeningRead(s: State, read: seq<Slip.Reading>)
    requires ValidState(s) && s.rx.buffer.Some? && s.rx.index < 0 && !s.rx.escaped
    requires read != [] && read[0].value == Slip.FRAME
    ensures var s1 := s.(rx := s.rx.(index := -4));
            ValidState(s1) && Collects(s1.rx, Slip.Decoded(false, [])) && Receive(s, read) == Receive(s1, read[1..])
  {
    hide ValidState, Collects, ReceiveOctet;
    ReceiveOctetIsValid(s, read[0]);
    FirstFrameOctet(s, read[0]);
    var r := Receive(s.(rx := s.rx.(index := -4)), read[1..]);
    assert [] + r.actions == r.actions;
  }

  lemma OpeningComing(rx: Rx, input: seq<Slip.Reading>, f: Frame)
    requires Slip.Carries(input, Wire(f)) && Collects(rx, Slip.Decoded(false, []))
    ensures input != [] && input[0].value == Slip.FRAME
    ensures Coming(rx, true, Slip.Decoded(false, []), input[1..], f)
  {
    hide Wire, Body, Collects, Slip.DecodeAll, Slip.Encode;
    WireParts(input, f);
    var n := |input| - 1;
    Slip.DecodeEncode([], Body(f), input[1..n]);
    assert [] + Body(f) == Body(f);
    assert input[1..][..n - 1] == input[1..n];
  }

  /** A piece that does not end the frame: the receiver is further on in it, and nothing else happens. */
  lemma ReadPiece(s: State, begun: bool, c: Slip.Decoded, read: seq<Slip.Reading>, later: seq<Slip.Reading>, f: Frame)
    returns (begun': bool, c': Slip.Decoded)
    requires ValidState(s) && Room(s.rx, f) && Coming(s.rx, begun, c, read + later, f) && later != []
    ensures var r := Receive(s, read);
            && r == Reading(s.(rx := r.state.rx), [], QUIET, None, []) && ValidState(r.state) && Room(r.state.rx, f)
            && Coming(r.state.rx, begun', c', later, f)
  {
    hide Receive, ValidState, Collects, Slip.DecodeAll, Wire, Body;
    if begun {
      ReadInside(s, c, read, later, f);
      begun', c' := true, Slip.DecodeAll(c, read);
    } else if read == [] {
      assert read + later == later;
      ReadNothing(s, []);
      begun', c' := false, c;
    } else {
      assert (read + later)[0] == read[0] && (read + later)[1..] == read[1..] + later;
      var s1 := s.(rx := s.rx.(index := -4));
      assert read[0].value == Slip.FRAME by { WireParts(read + later, f); }
      OpeningRead(s, read);
      OpeningComing(s1.rx, read + later, f);
      ReadInside(s1, Slip.Decoded(false, []), read[1..], later, f);
      begun', c' := true, Slip.DecodeAll(Slip.Decoded(false, []), read[1..]);
    }
  }

  /** The piece that ends the frame. */
  lemma ReadLast(s: State, begun: bool, c: Slip.Decoded, read: seq<Slip.Reading>, f: Frame)
    requires ValidState(s) && Room(s.rx, f) && Coming(s.rx, begun, c, read, f) && WellFormed(f)
    ensures var r, e := Receive(s, read), Accept(s.link, See(f));
            && r.rest == [] && r.state.link == e.link && r.activity == e.activity
            && r.delivered == (if e.delivered then Some(Packet(f.channel, f.reliable, f.payload)) else None)
  {
    hide Receive, ValidState, Collects, Slip.DecodeAll, Wire, Body, Accept, See, WellFormed, NoFrameOctet;
    if begun {
      var n := |read| - 1;
      assert read == read[..n] + [read[n]];
      FrameCompletes(s, c, read[..n], read[n], f);
    } else {
      FrameArrives(s, f, read);
    }
  }

  /** During this poll the closing FRAME of f is read, and the link as it is then receives f. */
  ghost predicate Brings(m: Line, piece: seq<Slip.Reading>, f: Frame)
    requires ValidState(m.state)
  {
    var t, p := TransmitIfDue(m.state), Poll(m.state, m.pending + piece);
    var e := Accept(t.state.link, See(f));
    && p.state.link == e.link && p.activity == QUIET.(sent := t.sent).Or(e.activity)
    && p.delivered == (if e.delivered then Some(Packet(f.channel, f.reliable, f.payload)) else None)
    && t.state.link.le == m.state.link.le && t.state.link.ackNo == m.state.link.ackNo
  }

  /** This poll receives nothing. */
  ghost predicate BringsNothing(m: Line, piece: seq<Slip.Reading>)
    requires ValidState(m.state)
  {
    var p := Poll(m.state, m.pending + piece);
    p.delivered.None? && p.state.link.le == m.state.link.le && p.state.link.ackNo == m.state.link.ackNo
  }

  function LineAt(m: Line, pieces: seq<seq<Slip.Reading>>, i: nat): (n: Line)
    requires ValidState(m.state) && i <= |pieces|
    ensures ValidState(n.state)
  {
    Polls(m, pieces[..i]).line
  }

  lemma LineAtNext(m: Line, pieces: seq<seq<Slip.Reading>>, i: nat)
    requires ValidState(m.state) && 0 < i <= |pieces|
    ensures ValidState(PollLine(m, pieces[0]).state)
    ensures LineAt(m, pieces, i) == LineAt(PollLine(m, pieces[0]), pieces[1..], i - 1)
  {
    hide Poll, ValidState;
    FirstPoll(m, pieces[..i]);
    assert pieces[..i][0] == pieces[0] && pieces[..i][1..] == pieces[1..][..i - 1];
  }

  lemma TransmitKeepsNumbers(s: State)
    requires ValidState(s)
    ensures var t := TransmitIfDue(s);
            t.state.link.le == s.link.le && t.state.link.ackNo == s.link.ackNo && t.state.rx == s.rx
  {
    hide Advance, Setup, EncodeHeader, HeaderOf, NextLePacket, LeFrame;
  }

  /** With nothing to read from now on, nothing is brought. */
  lemma {:induction false} Silent(m: Line, pieces: seq<seq<Slip.Reading>>, i: nat)
    requires ValidState(m.state) && m.pending == [] && Flatten(pieces) == [] && i < |pieces|
    ensures BringsNothing(LineAt(m, pieces, i), pieces[i])
    decreases i
  {
    hide Poll, ValidState;
    assert pieces[0] == [] && Flatten(pieces[1..]) == [];
    SilentPoll(m);
    TransmitKeepsNumbers(m.state);
    if i == 0 {
      NoPoll(m);
      SilentDelivers(m.state);
      assert pieces[..0] == [] && m.pending + pieces[0] == [];
    } else {
      LineAtNext(m, pieces, i);
      Silent(PollLine(m, []), pieces[1..], i - 1);
    }
  }

  lemma SilentDelivers(s: State)
    requires ValidState(s)
    ensures Poll(s, []).delivered.None?
  {
    hide TransmitIfDue, ValidTx, ValidRx;
    TransmitIsValid(s);
  }

  /** The frame is brought by exactly one of the polls. */
  lemma {:induction false} BroughtOnce(m: Line, pieces: seq<seq<Slip.Reading>>, begun: bool, c: Slip.Decoded, f: Frame)
    returns (k: nat)
    requires ValidState(m.state) && Room(m.state.rx, f) && WellFormed(f)
    requires Coming(m.state.rx, begun, c, m.pending + Flatten(pieces), f)
    requires Polls(m, pieces).line.pending == []
    ensures k < |pieces| && Brings(LineAt(m, pieces, k), pieces[k], f)
    ensures forall i: nat :: i < |pieces| && i != k ==> BringsNothing(LineAt(m, pieces, i), pieces[i])
    ensures LineAt(m, pieces, k).state.link.le == m.state.link.le
    ensures LineAt(m, pieces, k).state.link.ackNo == m.state.link.ackNo
    decreases pieces
  {
    hide ValidState, Coming, Room, WellFormed, Polls, TransmitIfDue, Receive, LineAt, Brings, BringsNothing, Poll;
    if pieces == [] {
      NoPoll(m);
      assert m.pending + Flatten(pieces) == [];
      ComingIsSomething(m.state.rx, begun, c, f);
    } else {
      var read, later := m.pending + pieces[0], Flatten(pieces[1..]);
      assert m.pending + Flatten(pieces) == read + later;
      FirstPoll(m, pieces);
      LineAtStart(m, pieces);
      var m1 := PollLine(m, pieces[0]);
      if later == [] && m1.pending == [] {
        assert read + later == read;
        LastPiece(m, pieces[0], begun, c, f);
        k := 0;
        forall i: nat | 0 < i < |pieces| ensures BringsNothing(LineAt(m, pieces, i), pieces[i]) {
          LineAtNext(m, pieces, i);
          Silent(m1, pieces[1..], i - 1);
        }
      } else {
        var begun', c' := PieceBefore(m, pieces[0], begun, c, later, f);
        var k1 := BroughtOnce(m1, pieces[1..], begun', c', f);
        k := k1 + 1;
        LineAtNext(m, pieces, k);
        forall i: nat | 0 < i < |pieces| && i != k ensures BringsNothing(LineAt(m, pieces, i), pieces[i]) {
          LineAtNext(m, pieces, i);
          assert i - 1 != k1;
        }
      }
    }
  }

  lemma LineAtStart(m: Line, pieces: seq<seq<Slip.Reading>>)
    requires ValidState(m.state)
    ensures LineAt(m, pieces, 0) == m
  {
    hide ValidState;
    NoPoll(m);
    assert pieces[..0] == [];
  }

  lemma ComingIsSomething(rx: Rx, begun: bool, c: Slip.Decoded, f: Frame)
    ensures !Coming(rx, begun, c, [], f)
  {
    hide Body, Slip.Encode;
  }

  /** The poll that reads all there is left of the frame. */
  lemma LastPiece(m: Line, piece: seq<Slip.Reading>, begun: bool, c: Slip.Decoded, f: Frame)
    requires ValidState(m.state) && Room(m.state.rx, f) && WellFormed(f)
    requires Coming(m.state.rx, begun, c, m.pending + piece, f) && PollLine(m, piece).pending == []
    ensures Brings(m, piece, f)
  {
    hide ValidState, Coming, Room, WellFormed, TransmitIfDue, Receive, Accept, See;
    TransmitIsValid(m.state);
    TransmitKeepsNumbers(m.state);
    if TransmitIfDue(m.state).early {
      ComingIsSomething(m.state.rx, begun, c, f);
    } else {
      ReadLast(TransmitIfDue(m.state).state, begun, c, m.pending + piece, f);
    }
  }

  /** A poll before that one, or one that returns before it reads. */
  lemma PieceBefore(m: Line, piece: seq<Slip.Reading>, begun: bool, c: Slip.Decoded, later: seq<Slip.Reading>, f: Frame)
    returns (begun': bool, c': Slip.Decoded)
    requires ValidState(m.state) && Room(m.state.rx, f) && WellFormed(f)
    requires Coming(m.state.rx, begun, c, m.pending + piece + later, f)
    requires later != [] || PollLine(m, piece).pending != []
    ensures var m1 := PollLine(m, piece);
            ValidState(m1.state) && Room(m1.state.rx, f) && Coming(m1.state.rx, begun', c', m1.pending + later, f)
    ensures BringsNothing(m, piece)
    ensures var l := PollLine(m, piece).state.link; l.le == m.state.link.le && l.ackNo == m.state.link.ackNo
  {
    hide ValidState, Coming, Room, WellFormed, TransmitIfDue, Receive;
    var read := m.pending + piece;
    PollIsValid(m.state, read);
    TransmitIsValid(m.state);
    TransmitKeepsNumbers(m.state);
    var t := TransmitIfDue(m.state);
    if t.early {
      begun', c' := begun, c;
    } else {
      if later == [] {
        assert read + later == read;
        ReadLast(t.state, begun, c, read, f);
        assert false;
      }
      begun', c' := ReadPiece(t.state, begun, c, read, later, f);
      assert [] + later == later;
    }
  }

  /** Frame round trip. A frame is due at one engine; over its next 1 + |encoding| polls, undisturbed, it puts
      octets on the line; another engine, waiting for a frame with room for this one, gets those octets in any pieces
      over its own polls, until it has read them all. Then in exactly one of these polls its link receives exactly that
      frame, and the host gets exactly that channel, reliable bit and payload if the link delivers. */
  lemma RoundTrip(l: Line, arrivals: seq<seq<Slip.Reading>>, f: Frame, m: Line, pieces: seq<seq<Slip.Reading>>)
    returns (k: nat)
    requires Due(l.state, f) && WellFormed(f)
    requires |arrivals| == 1 + |Slip.Encode(Body(f))| && Undisturbed(l, arrivals)
    requires ValidState(m.state) && m.pending == [] && m.state.rx.index < 0 && !m.state.rx.escaped
    requires Room(m.state.rx, f)
    requires Slip.Carries(Flatten(pieces), Polls(l, arrivals).output) && Polls(m, pieces).line.pending == []
    ensures k < |pieces| && Brings(LineAt(m, pieces, k), pieces[k], f)
    ensures forall i: nat :: i < |pieces| && i != k ==> BringsNothing(LineAt(m, pieces, i), pieces[i])
    ensures m.state.link.le == ACTIVE && f.channel != LE_CHANNEL && f.payload != [] && !f.reliable ==>
              var n := LineAt(m, pieces, k);
              var p := Poll(n.state, n.pending + pieces[k]);
              && p.delivered == Some(Packet(f.channel, false, f.payload))
              && p.activity.received && !p.activity.ack && p.state.link.ackNo == m.state.link.ackNo
    ensures m.state.link.le == ACTIVE && f.channel != LE_CHANNEL && f.reliable && f.payload != [] ==>
              var n := LineAt(m, pieces, k);
              var p := Poll(n.state, n.pending + pieces[k]);
              if f.seqNo == m.state.link.ackNo then
                && p.delivered == Some(Packet(f.channel, true, f.payload))
                && p.activity.received && p.activity.ack
                && p.state.link.ackNo == Increment(m.state.link.ackNo) && p.state.link.sendAck
              else
                p.delivered.None? && p.state.link.ackNo == m.state.link.ackNo && p.state.link.sendAck
  {
    hide Due, Undisturbed, Polls, Wire, Poll, LineAt, Brings, BringsNothing, Collects, Body, Room, Slip.DecodeAll;
    hide WellFormed, Increment, ValidState;
    FrameGoesOut(l, arrivals, f);
    assert m.pending + Flatten(pieces) == Flatten(pieces);
    k := BroughtOnce(m, pieces, false, Slip.Decoded(false, []), f);
    if m.state.link.le == ACTIVE && f.channel != LE_CHANNEL && f.payload != [] {
      if f.reliable {
        BringsReliable(LineAt(m, pieces, k), pieces[k], f);
      } else {
        BringsUnreliable(LineAt(m, pieces, k), pieces[k], f);
      }
    }
  }

  /** An unreliable frame with payload, brought to an active link, is delivered whatever its number. */
  lemma BringsUnreliable(m: Line, piece: seq<Slip.Reading>, f: Frame)
    requires ValidState(m.state) && Brings(m, piece, f)
    requires m.state.link.le == ACTIVE && f.channel != LE_CHANNEL && !f.reliable && f.payload != []
    ensures var p, t := Poll(m.state, m.pending + piece), TransmitIfDue(m.state).state.link;
            && p.delivered == Some(Packet(f.channel, false, f.payload))
            && p.activity.received && !p.activity.ack
            && p.state.link.ackNo == m.state.link.ackNo && p.state.link.sendAck == t.sendAck
  {
    hide TransmitIfDue, Poll, Accept, See, Increment, ValidState;
    UnreliableFrame(TransmitIfDue(m.state).state.link, f);
  }

  lemma UnreliableFrame(l: Link, f: Frame)
    requires l.le == ACTIVE && f.channel != LE_CHANNEL && !f.reliable && f.payload != []
    ensures var e := Accept(l, See(f));
            && e.delivered && e.activity.received && !e.activity.ack
            && e.link.ackNo == l.ackNo && e.link.sendAck == l.sendAck
  {
    hide Increment, WhichLe;
  }

  /** A reliable frame with payload, brought to an active link. */
  lemma BringsReliable(m: Line, piece: seq<Slip.Reading>, f: Frame)
    requires ValidState(m.state) && Brings(m, piece, f)
    requires m.state.link.le == ACTIVE && f.channel != LE_CHANNEL && f.reliable && f.payload != []
    ensures var p := Poll(m.state, m.pending + piece);
            if f.seqNo == m.state.link.ackNo then
              && p.delivered == Some(Packet(f.channel, true, f.payload))
              && p.activity.received && p.activity.ack
              && p.state.link.ackNo == Increment(m.state.link.ackNo) && p.state.link.sendAck
            else
              p.delivered.None? && p.state.link.ackNo == m.state.link.ackNo && p.state.link.sendAck
  {
    hide TransmitIfDue, Poll, Accept, See, Increment, ValidState;
    ReliableFrame(TransmitIfDue(m.state).state.link, f);
  }

  lemma ReliableFrame(l: Link, f: Frame)
    requires l.le == ACTIVE && f.channel != LE_CHANNEL && f.reliable && f.payload != []
    ensures var e := Accept(l, See(f));
            && e.link.sendAck && (e.delivered <==> f.seqNo == l.ackNo)
            && (e.activity.received && e.activity.ack <==> e.delivered)
            && e.link.ackNo == (if e.delivered then Increment(l.ackNo) else l.ackNo)
  {
    hide Increment, WhichLe;
  }

  // ---------- a report that does not protect ----------

  /** The peer's acknowledgement of the pending packet. */
  function AckOfPending(l: Link): Frame {
    Frame(false, Increment(l.seqNo), 0, 0, [])
  }

  lemma AckIsAccepted(l: Link)
    requires l.out.Some? && l.out.value.reliable
    ensures WellFormed(AckOfPending(l))
    ensures var e := Accept(l, See(AckOfPending(l)));
            e.activity.sent && e.link.out.None? && !e.cut && !e.delivered
  {
    assert ChannelField(0) == 0;
    assert Increment(l.seqNo) != l.seqNo;
    hide Increment;
  }

  /** Waiting for a report that the packet was sent does not keep the next frame from being spoiled. If the frame of the
      pending packet has a FRAME or an ESCAPE octet in its body, its acknowledgement can arrive in the middle of an
      escape sequence of a retransmission; the poll reports the packet sent, and the packet submitted then finds the
      escape code left over. */
  lemma SentDoesNotProtect(l: Line, acks: seq<Slip.Reading>, q: Packet) returns (n: nat)
    requires Waiting(l) && q.payload != []
    requires var f := PendingFrame(l.state.link); Slip.FRAME in Body(f) || Slip.ESCAPE in Body(f)
    requires l.state.rx.buffer.Some? && l.state.rx.index < 0 && !l.state.rx.escaped
    requires l.state.rx.buffer.value.capacity >= 2
    requires Slip.Carries(acks, Wire(AckOfPending(l.state.link)))
    ensures var m := Polls(l, Silence(n)).line;
            var p := Poll(m.state, m.pending + acks);
            var s := SendPacket(p.state, q);
            && p.activity.sent && p.state.link.out.None?
            && NextFrame(s.link).frame.Some? && Next(s, NextFrame(s.link).frame.value) && EscapeCode(s.tx.escape)
  {
    hide Poll, Sending, ToSend, Wire, Body, PollOutput, ValidTx, ValidRx, Setup, EncodeHeader, HeaderOf, Slip.Encode;
    hide Increment, EscapeCode, Advance;
    FirstPollOfFrame(l);
    var f := PendingFrame(l.state.link);
    SetupSends(l.state.tx, f, BlockOf(f));
    assert l.pending + [] == [];
    PollStarts(l, [], f);
    EscapeInEncoding(Body(f));
    var l1 := PollLine(l, []);
    EscapeOnWire(l1.state.tx, f);
    var rest := EscapeAhead(l1);
    n := rest + 1;
    assert Silence(n)[0] == [] && Silence(n)[1..] == Silence(rest);
    AckInEscape(Polls(l1, Silence(rest)).line.state, acks, q);
    var m := Polls(l, Silence(n)).line;
    assert m.pending + acks == acks;
  }

  /** The poll in which the first half of an escape sequence goes out and the acknowledgement comes in. */
  lemma AckInEscape(s: State, acks: seq<Slip.Reading>, q: Packet)
    requires ValidState(s) && s.delay == 0 && Sending(s.tx) && s.tx.escape == 0 && s.tx.size != 0
    requires Advance(s.tx).1 == Slip.ESCAPE
    requires s.link.out.Some? && s.link.out.value.reliable && q.payload != []
    requires s.rx.buffer.Some? && s.rx.index < 0 && !s.rx.escaped && s.rx.buffer.value.capacity >= 2
    requires Slip.Carries(acks, Wire(AckOfPending(s.link)))
    ensures var p := Poll(s, acks);
            var s' := SendPacket(p.state, q);
            && p.activity.sent && p.state.link.out.None?
            && NextFrame(s'.link).frame.Some? && Next(s', NextFrame(s'.link).frame.value) && EscapeCode(s'.tx.escape)
  {
    hide Sending, Wire, ValidTx, ValidRx, Increment, EscapeCode, Advance, Receive, Accept, See, AckOfPending;
    hide NextFrame, WellFormed, PayloadIfData;
    EscapeOut(s.tx);
    TransmitIsValid(s);
    var t := TransmitIfDue(s).state;
    AckIsAccepted(s.link);
    AckHasNoPayload(s.link);
    FrameArrives(t, AckOfPending(s.link), acks);
    ReceiveIsValid(t, acks);
    PollIsValid(s, acks);
    SubmittedIsNext(Poll(s, acks).state, q);
  }

  lemma AckHasNoPayload(l: Link)
    ensures AckOfPending(l).payload == []
  {
  }

  // ---------- resynchronisation ----------

  /** After anything at all: an engine that still waits for a packet has read all its input. */
  lemma {:induction false} ArmedReadsAll(s: State, input: seq<Slip.Reading>)
    requires ValidState(s)
    ensures Receive(s, input).state.rx.buffer.Some? ==> Receive(s, input).rest == []
    decreases input
  {
    hide ReceiveOctet, ValidState;
    if s.rx.buffer.Some? && input != [] {
      ReceiveOctetIsValid(s, input[0]);
      ArmedReadsAll(ReceiveOctet(s, input[0]).state, input[1..]);
    }
  }

  lemma {:induction false} EscapeFollowed(s: State, input: seq<Slip.Reading>, octets: seq<Octet>)
    requires ValidState(s) && s.rx.buffer.Some? && NoFrameOctet(input)
    ensures Receive(s, input).state.rx.escaped ==
            Slip.DecodeAll(Slip.Decoded(s.rx.escaped, octets), input).escaped
    decreases input
  {
    hide ValidState, BoundaryReception, Store, Slip.Deslip;
    if input != [] {
      InsideOctet(s, input[0]);
      var d := Slip.DecodeNext(Slip.Decoded(s.rx.escaped, octets), input[0]);
      assert ReceiveOctet(s, input[0]).state.rx.escaped == d.escaped;
      EscapeFollowed(ReceiveOctet(s, input[0]).state, input[1..], d.octets);
    }
  }

  /** Whatever junk the receiver is in the middle of, after one whole frame it is at a frame boundary with no
      escape pending, provided that it still waits for a packet. */
  lemma Resynchronises(s: State, input: seq<Slip.Reading>, f: Frame)
    requires ValidState(s) && s.rx.buffer.Some? && Slip.Carries(input, Wire(f))
    requires Receive(s, input).state.rx.buffer.Some?
    ensures var r := Receive(s, input);
            r.rest == [] && ValidState(r.state) && r.state.rx.index == -4 && !r.state.rx.escaped
  {
    hide BoundaryReception, Receive, Wire, Body, Store, Slip.DecodeAll, Slip.Encode, NoFrameOctet, ValidTx;
    var n := |input| - 1;
    WireParts(input, f);
    ReceiveIsValid(s, input);
    ArmedReadsAll(s, input);
    ReceiveOne(s, input[0]);
    ReceiveOctetIsValid(s, input[0]);
    ReceiveConcat(s, [input[0]], input[1..n] + [input[n]]);
    var s1 := ReceiveOctet(s, input[0]).state;
    if s1.rx.buffer.None? {
      UnarmedStays(s1, input[1..n] + [input[n]]);
    } else {
      assert !s1.rx.escaped by { FrameOctetClearsEscape(s, input[0]); }
      ReceiveInside(s1, input[1..n]);
      EscapeFollowed(s1, input[1..n], []);
      Slip.DecodeEncode([], Body(f), input[1..n]);
      ReceiveIsValid(s1, input[1..n]);
      var s2 := Receive(s1, input[1..n]).state;
      ReceiveConcat(s1, input[1..n], [input[n]]);
      ReceiveOne(s2, input[n]);
      BoundaryIsValid(s2);
    }
  }

  lemma UnarmedStays(s: State, input: seq<Slip.Reading>)
    requires ValidState(s) && s.rx.buffer.None?
    ensures Receive(s, input).state == s
  {
  }

  lemma FrameOctetClearsEscape(s: State, r: Slip.Reading)
    requires ValidState(s) && s.rx.buffer.Some? && r.value == Slip.FRAME
    ensures !ReceiveOctet(s, r).state.rx.escaped
  {
    hide ValidTx;
    if !s.rx.escaped {
      BoundaryIsValid(s);
    }
  }

  /** So at most one frame is lost to junk: of two whole frames in a row the second always reaches the link as
      it was sent, if the receiver still waits for a packet after the first and has room for the second. */
  lemma AtMostOneFrameLost(s: State, first: seq<Slip.Reading>, second: seq<Slip.Reading>, f: Frame, g: Frame)
    requires ValidState(s) && s.rx.buffer.Some?
    requires Slip.Carries(first, Wire(f)) && Slip.Carries(second, Wire(g)) && WellFormed(g)
    requires var t := Receive(s, first).state;
             t.rx.buffer.Some? && |g.payload| + 2 <= t.rx.buffer.value.capacity
    ensures var t := Receive(s, first).state;
            var r, e := Receive(s, first + second), Accept(t.link, See(g));
            && r.rest == [] && r.state.link == e.link
            && (Receive(s, first).delivered.None? ==>
                  r.delivered == (if e.delivered then Some(Packet(g.channel, g.reliable, g.payload)) else None))
  {
    hide Receive, Wire, Accept, WellFormed;
    Resynchronises(s, first, f);
    FrameArrives(Receive(s, first).state, g, second);
    ReceiveConcat(s, first, second);
  }
}
