/** Two engines joined by two channels that keep the order of frames but may lose any of them. The engines are
    the frame-level ones of module FrameLevel; every frame in flight also records, for the proof only, how many packets
    its sender had retired and delivered when the frame was started. */
module TwoEngines {
  import opened Framing
  import opened FrameLevel
  import opened FrameLevelRuns

  /** dataNo: packets retired by the sender when the frame was started. ackCount: packets delivered to it by
      then, or 0 for a link establishment frame, whose acknowledgement field is 0. */
  datatype Sent = Sent(frame: Frame, dataNo: nat, ackCount: nat)

  /** One engine with its history, and the frames it has started that are still on their way. submitted: for each
      packet number the packets its host handed over under that number, more than one if it replaced a packet that
      was still pending. */
  datatype Side = Side(link: Link, submitted: seq<seq<Packet>>, retired: nat, delivered: seq<Packet>, wire: seq<Sent>)

  datatype System = System(a: Side, b: Side)

  datatype Event =
    | Starts                // the engine starts a frame
    | Finishes              // it has sent a closing FRAME octet
    | Submits(p: Packet)    // its host hands over a packet
    | Receives              // it receives the next frame from its peer
    | Noise                 // it receives something that fails the integrity checks
    | Loses(i: nat)         // a frame on its way to the peer is lost or cut short

  datatype Move = Move(byA: bool, event: Event)

  /** The packet as the peer sees it: four bits of the channel number travel. */
  function OnLine(p: Packet): Packet {
    p.(channel := ChannelField(p.channel))
  }

  /** What a host may submit, at any time: the link establishment channel belongs to the engine, the length field
      has twelve bits, and an empty payload is never sent. */
  predicate MaySubmit(p: Packet) {
    p.reliable && ChannelField(p.channel) != LE_CHANNEL && 1 <= |p.payload| <= 4095
  }

  predicate Enabled(x: Side, y: Side, e: Event) {
    match e
    case Starts => NextFrame(x.link).frame.Some?
    case Submits(p) => MaySubmit(p)
    case Receives => y.wire != []
    case Loses(i) => i < |x.wire|
    case _ => true
  }

  function Starting(x: Side): Side
    requires NextFrame(x.link).frame.Some?
  {
    var f := NextFrame(x.link).frame.value;
    x.(link := NextFrame(x.link).link,
       wire := x.wire + [Sent(f, x.retired, if f.channel == LE_CHANNEL then 0 else |x.delivered|)])
  }

  function Receiving(x: Side, f: Frame): Side {
    var e := Accept(x.link, See(f));
    x.(link := e.link,
       retired := if e.retired then x.retired + 1 else x.retired,
       delivered := if e.delivered then x.delivered + [Packet(f.channel, f.reliable, f.payload)] else x.delivered)
  }

  function Losing(x: Side, i: nat): Side
    requires i < |x.wire|
  {
    x.(wire := x.wire[..i] + x.wire[i + 1..])
  }

  /** A packet submitted while another one is pending takes its place, and its number. */
  function Filed(submitted: seq<seq<Packet>>, again: bool, p: Packet): seq<seq<Packet>> {
    var n := |submitted| - 1;
    if again && n >= 0 then submitted[n := submitted[n] + [p]] else submitted + [[p]]
  }

  function Submitting(x: Side, p: Packet): Side {
    x.(link := Submit(x.link, p), submitted := Filed(x.submitted, x.link.out.Some?, OnLine(p)))
  }

  /** The two sides after x has made a move. */
  function Moved(x: Side, y: Side, e: Event): (Side, Side)
    requires Enabled(x, y, e)
  {
    match e
    case Starts => (Starting(x), y)
    case Finishes => (x.(link := FinishFrame(x.link)), y)
    case Submits(p) => (Submitting(x, p), y)
    case Receives => (Receiving(x, y.wire[0].frame), y.(wire := y.wire[1..]))
    case Noise => (x.(link := Reject(x.link)), y)
    case Loses(i) => (Losing(x, i), y)
  }

  predicate Possible(s: System, m: Move) {
    if m.byA then Enabled(s.a, s.b, m.event) else Enabled(s.b, s.a, m.event)
  }

  function Step(s: System, m: Move): System
    requires Possible(s, m)
  {
    if m.byA then
      var (x, y) := Moved(s.a, s.b, m.event);
      System(x, y)
    else
      var (x, y) := Moved(s.b, s.a, m.event);
      System(y, x)
  }

  /** A side as ubcsp_initialize leaves it, with nothing pending. */
  predicate Fresh(x: Side) {
    && x.link == Initialize(x.link) && x.link.resp == 0 && x.link.out.None?
    && x.submitted == [] && x.retired == 0 && x.delivered == [] && x.wire == []
  }

  ghost predicate Valid(moves: seq<Move>, s: System)
    decreases moves
  {
    moves != [] ==> Possible(s, moves[0]) && Valid(moves[1..], Step(s, moves[0]))
  }

  function Final(moves: seq<Move>, s: System): System
    requires Valid(moves, s)
    decreases moves
  {
    if moves == [] then s else Final(moves[1..], Step(s, moves[0]))
  }

  // ---------- the invariant, for the data from x to y ----------

  predicate IsLe(f: Frame) { f.channel == LE_CHANNEL }

  predicate IsLeKind(f: Frame, k: LePacket) { IsLe(f) && See(f).le == k }

  predicate IsData(f: Frame) { !IsLe(f) && f.payload != [] }

  /** Link establishment frames of every kind but CONF RESP are sent only before the first data or ack frame. */
  predicate IsEarly(f: Frame) { IsLe(f) && See(f).le != CONF_RESP }

  /** One packet of every number. */
  predicate OneOfEach(delivered: seq<Packet>, submitted: seq<seq<Packet>>) {
    |delivered| <= |submitted| && forall k :: 0 <= k < |delivered| ==> delivered[k] in submitted[k]
  }

  /** x retires and y delivers in step, y at most one packet ahead, and in the order of submission. */
  predicate Counted(x: Side, y: Side) {
    var n, m := x.retired, |y.delivered|;
    && x.link.seqNo == Wrap(n) && y.link.ackNo == Wrap(m)
    && n <= m <= n + 1
    && |x.submitted| == (if x.link.out.Some? then n + 1 else n)
    && OneOfEach(y.delivered, x.submitted)
    && (x.link.out.Some? ==>
          var p := x.link.out.value;
          p.reliable && p.payload != [] && ChannelField(p.channel) != LE_CHANNEL && OnLine(p) in x.submitted[n])
  }

  /** A data frame in flight carries the packet its number says, and that is the last packet delivered or
      the one after it. */
  ghost predicate DataInFlight(x: Side, y: Side) {
    && (forall i :: 0 <= i < |x.wire| ==> GenuineData(x, y, x.wire[i]))
    && (forall i, j :: 0 <= i < j < |x.wire| ==> x.wire[i].dataNo <= x.wire[j].dataNo)
  }

  predicate GenuineData(x: Side, y: Side, w: Sent) {
    && w.dataNo <= x.retired && |y.delivered| <= w.dataNo + 1
    && (IsData(w.frame) ==>
          && w.dataNo < |x.submitted|
          && w.frame.reliable && w.frame.seqNo == Wrap(w.dataNo)
          && Packet(w.frame.channel, true, w.frame.payload) in x.submitted[w.dataNo])
  }

  /** An acknowledgement in flight is for all or all but the last of the packets delivered. */
  ghost predicate AcksInFlight(x: Side, y: Side) {
    && (forall i :: 0 <= i < |y.wire| ==>
          && y.wire[i].frame.ackNo == Wrap(y.wire[i].ackCount)
          && x.retired <= y.wire[i].ackCount <= |y.delivered|)
    && (forall i, j :: 0 <= i < j < |y.wire| ==> y.wire[i].ackCount <= y.wire[j].ackCount)
    && (y.link.pkt != NONE || y.link.resp == RESPOND_CONF ==>
          x.retired == 0 && forall i :: 0 <= i < |y.wire| ==> y.wire[i].ackCount == 0)
  }

  /** Nothing early is sent once x has sent data: SYNC, SYNC RESP and CONF travel in front of all data. */
  ghost predicate EarlyFirst(x: Side, y: Side) {
    && (forall i :: 0 <= i < |x.wire| && IsLe(x.wire[i].frame) ==>
          See(x.wire[i].frame).le < NONE && x.wire[i].frame.ackNo == 0 && x.wire[i].ackCount == 0)
    && (forall i :: 0 <= i < |x.wire| && IsEarly(x.wire[i].frame) ==>
          |y.delivered| == 0 && forall j :: 0 <= j < i ==> !IsData(x.wire[j].frame))
    && (x.link.pkt != NONE ==>
          |y.delivered| == 0 && forall j :: 0 <= j < |x.wire| ==> !IsData(x.wire[j].frame))
  }

  /** No SYNC travels behind a CONF RESP, nor towards an active engine. */
  ghost predicate NoLateSync(x: Side, y: Side) {
    && (forall i :: 0 <= i < |x.wire| && IsLeKind(x.wire[i].frame, CONF_RESP) ==>
          && x.link.pkt != SYNC && x.link.le >= INITIALIZED
          && forall j :: i < j < |x.wire| ==> !IsLeKind(x.wire[j].frame, SYNC))
    && (y.link.le == ACTIVE ==>
          && x.link.pkt != SYNC && x.link.le >= INITIALIZED
          && forall j :: 0 <= j < |x.wire| ==> !IsLeKind(x.wire[j].frame, SYNC))
  }

  ghost predicate Established(x: Side, y: Side) {
    LeConsistent(x.link) && EarlyFirst(x, y) && NoLateSync(x, y)
  }

  ghost predicate Half(x: Side, y: Side) {
    Counted(x, y) && DataInFlight(x, y) && AcksInFlight(x, y) && Established(x, y)
  }

  ghost predicate Both(x: Side, y: Side) {
    Half(x, y) && Half(y, x)
  }

  // ---------- starting a frame ----------

  lemma LeFrameSeen(k: LePacket)
    requires k < NONE
    ensures var f := LeFrame(k);
            IsLeKind(f, k) && f.ackNo == 0 && !IsData(f) && (IsEarly(f) <==> k != CONF_RESP)
  {
    WhichLeOctets(k);
  }

  /** The three things a started frame can be. */
  lemma StartedFrame(l: Link)
    requires NextFrame(l).frame.Some? && LeConsistent(l)
    requires l.out.Some? ==> ChannelField(l.out.value.channel) != LE_CHANNEL
    ensures var f, l' := NextFrame(l).frame.value, NextFrame(l).link;
            && l'.le == l.le && l'.out == l.out && l'.seqNo == l.seqNo && l'.ackNo == l.ackNo
            && LeConsistent(l')
            && (l.le >= INITIALIZED ==> l'.pkt != SYNC)
            && (l.pkt == NONE ==> l'.pkt == NONE)
            && (IsLe(f) ==> l.pkt != NONE || l.resp == RESPOND_CONF)
            && (l.pkt != NONE ==> IsLeKind(f, l.pkt) && f.ackNo == 0)
            && (l.pkt == NONE && IsLe(f) ==> IsLeKind(f, CONF_RESP) && f.ackNo == 0)
            && (!IsLe(f) ==>
                  && f.ackNo == l.ackNo && l'.resp != RESPOND_CONF && l'.pkt == NONE
                  && (IsData(f) ==> l.out.Some? && f == DataFrame(l, l.out.value)))
  {
    hide NextLePacket, LeFrame, IsLeKind, IsEarly;
    TableIsConsistent(l.le, l.resp);
    if l.pkt != NONE {
      LeFrameSeen(l.pkt);
    } else if l.resp == RESPOND_CONF {
      LeFrameSeen(CONF_RESP);
    }
  }

  lemma StartKeepsData(x: Side, y: Side)
    requires Both(x, y) && NextFrame(x.link).frame.Some?
    ensures Counted(Starting(x), y) && DataInFlight(Starting(x), y)
  {
    hide NextLePacket, LeFrame, NextFrame, See, Increment, IsLeKind, IsEarly, AcksInFlight, ChannelField;
    StartedFrame(x.link);
  }

  lemma StartKeepsAcks(x: Side, y: Side)
    requires Both(x, y) && NextFrame(x.link).frame.Some?
    ensures AcksInFlight(Starting(x), y)
    ensures AcksInFlight(y, Starting(x))
  {
    hide NextLePacket, LeFrame, NextFrame, See, Increment, DataInFlight, IsData, IsEarly, ChannelField;
    StartedFrame(x.link);
  }

  lemma StartKeepsEarlyFirst(x: Side, y: Side)
    requires Both(x, y) && NextFrame(x.link).frame.Some?
    ensures EarlyFirst(Starting(x), y)
  {
    hide NextLePacket, LeFrame, NextFrame, See, Increment, DataInFlight, AcksInFlight, NoLateSync, ChannelField;
    StartedFrame(x.link);
  }

  lemma StartKeepsNoLateSync(x: Side, y: Side)
    requires Both(x, y) && NextFrame(x.link).frame.Some?
    ensures LeConsistent(Starting(x).link) && NoLateSync(Starting(x), y)
  {
    hide NextLePacket, LeFrame, NextFrame, See, Increment, DataInFlight, AcksInFlight, EarlyFirst, ChannelField;
    StartedFrame(x.link);
  }

  lemma StartKeeps(x: Side, y: Side)
    requires Both(x, y) && NextFrame(x.link).frame.Some?
    ensures Both(Starting(x), y)
  {
    StartKeepsData(x, y);
    StartKeepsAcks(x, y);
    StartKeepsEarlyFirst(x, y);
    StartKeepsNoLateSync(x, y);
    hide NextLePacket, LeFrame, NextFrame, See, Increment, OnLine, ChannelField, AcksInFlight;
    StartedFrame(x.link);
  }

  // ---------- receiving a frame ----------

  /** Everything about accepting a frame that the invariant needs, when it is not a peer reset. */
  lemma AcceptedFrame(l: Link, s: Seen)
    requires LeConsistent(l)
    ensures var e := Accept(l, s);
            && (e.reset <==> s.channel == LE_CHANNEL && s.le == SYNC && l.le == ACTIVE)
            && e.retired == Acknowledges(l, s)
            && (e.delivered ==> s.channel != LE_CHANNEL && s.hasPayload && l.le == ACTIVE &&
                                (s.reliable ==> s.seqNo == l.ackNo))
    ensures var e := Accept(l, s);
            !e.reset ==>
              && LeConsistent(e.link)
              && e.link.pkt == l.pkt && e.link.le >= l.le
              && e.link.out == (if e.retired then None else l.out)
              && e.link.seqNo == (if e.retired then Increment(l.seqNo) else l.seqNo)
              && e.link.ackNo == (if e.delivered && s.reliable then Increment(l.ackNo) else l.ackNo)
              && (e.link.resp == RESPOND_CONF && l.resp != RESPOND_CONF ==> s.channel == LE_CHANNEL && s.le == CONF)
              && (e.link.le == ACTIVE && l.le != ACTIVE ==> s.channel == LE_CHANNEL && s.le == CONF_RESP)
              && (e.link.le >= INITIALIZED && l.le < INITIALIZED ==>
                    s.channel == LE_CHANNEL && (s.le == SYNC_RESP || s.le == CONF_RESP))
  {
    hide Increment;
  }

  /** The first frame on its way to x is not a SYNC once x is active. */
  lemma NoSpuriousReset(x: Side, y: Side)
    requires Both(x, y) && y.wire != []
    ensures !Accept(x.link, See(y.wire[0].frame)).reset
  {
    hide See, Increment;
    AcceptedFrame(x.link, See(y.wire[0].frame));
    assert See(y.wire[0].frame).channel == y.wire[0].frame.channel by { SeeFields(y.wire[0].frame); }
    assert IsLe(y.wire[0].frame) && See(y.wire[0].frame).le == SYNC ==> IsLeKind(y.wire[0].frame, SYNC);
  }

  lemma SeeFields(f: Frame)
    ensures var s := See(f);
            s.reliable == f.reliable && s.ackNo == f.ackNo && s.seqNo == f.seqNo && s.channel == f.channel &&
            (s.hasPayload <==> f.payload != [])
  {
  }

  lemma IncrementDiffers(c: Count)
    ensures Increment(c) != c
  {
  }

  /** The test ack != seq is right: it holds exactly when the acknowledgement is for the pending packet. */
  lemma AckTestIsRight(x: Side, y: Side)
    requires Both(x, y) && y.wire != []
    ensures var w := y.wire[0];
            Acknowledges(x.link, See(w.frame)) <==> w.ackCount == x.retired + 1
    ensures var w := y.wire[0];
            w.ackCount == x.retired + 1 ==> |y.delivered| == x.retired + 1 && !IsLe(w.frame)
  {
    hide Increment, Established, DataInFlight, OnLine, ChannelField;
    SeeFields(y.wire[0].frame);
    IncrementDiffers(Wrap(x.retired));
    if IsLe(y.wire[0].frame) {
      EstablishedLe(y, x, 0);
    }
  }

  lemma EstablishedLe(x: Side, y: Side, i: nat)
    requires Established(x, y) && i < |x.wire| && IsLe(x.wire[i].frame)
    ensures x.wire[i].ackCount == 0 && See(x.wire[i].frame).le < NONE
  {
  }

  /** A data frame that x delivers is the next one of y's submissions. */
  lemma DeliveryIsNext(x: Side, y: Side)
    requires Both(x, y) && y.wire != []
    requires Accept(x.link, See(y.wire[0].frame)).delivered
    ensures var w := y.wire[0];
            && IsData(w.frame) && w.frame.reliable
            && w.dataNo == |x.delivered| == y.retired < |y.submitted|
            && Packet(w.frame.channel, w.frame.reliable, w.frame.payload) in y.submitted[|x.delivered|]
  {
    hide Increment, Established, AcksInFlight, Accept, See, OnLine, ChannelField;
    var w := y.wire[0];
    SeeFields(w.frame);
    assert LeConsistent(x.link) by { EstablishedConsistent(x, y); }
    AcceptedFrame(x.link, See(w.frame));
    assert GenuineData(y, x, w);
    IncrementDiffers(Wrap(w.dataNo));
  }

  lemma EstablishedConsistent(x: Side, y: Side)
    requires Established(x, y)
    ensures LeConsistent(x.link)
  {
  }

  function AfterReceiving(x: Side, y: Side): (Side, Side)
    requires y.wire != []
  {
    (Receiving(x, y.wire[0].frame), y.(wire := y.wire[1..]))
  }

  lemma ReceiveKeepsCounts(x: Side, y: Side)
    requires Both(x, y) && y.wire != []
    ensures var (x', y') := AfterReceiving(x, y);
            Counted(x', y') && Counted(y', x')
  {
    hide Increment, DataInFlight, AcksInFlight, Accept, See, OnLine, ChannelField, Acknowledges;
    var s := See(y.wire[0].frame);
    EstablishedConsistent(x, y);
    AcceptedFrame(x.link, s);
    NoSpuriousReset(x, y);
    AckTestIsRight(x, y);
    SeeFields(y.wire[0].frame);
    if Accept(x.link, s).delivered {
      DeliveryIsNext(x, y);
    }
    hide Established;
  }

  lemma ReceiveKeepsData(x: Side, y: Side)
    requires Both(x, y) && y.wire != []
    ensures var (x', y') := AfterReceiving(x, y);
            DataInFlight(x', y') && DataInFlight(y', x')
  {
    hide Increment, Established, AcksInFlight, Accept, See, OnLine, ChannelField, Counted, IsData;
    if Accept(x.link, See(y.wire[0].frame)).delivered {
      DeliveryIsNext(x, y);
    }
  }

  lemma ReceiveKeepsAcks(x: Side, y: Side)
    requires Both(x, y) && y.wire != []
    ensures var (x', y') := AfterReceiving(x, y);
            AcksInFlight(x', y') && AcksInFlight(y', x')
  {
    hide Increment, DataInFlight, Accept, See, OnLine, ChannelField, Acknowledges, LeConsistent;
    var w := y.wire[0];
    EstablishedConsistent(x, y);
    AcceptedFrame(x.link, See(w.frame));
    NoSpuriousReset(x, y);
    AckTestIsRight(x, y);
    SeeFields(w.frame);
  }

  lemma ReceiveKeepsEstablished(x: Side, y: Side)
    requires Both(x, y) && y.wire != []
    ensures var (x', y') := AfterReceiving(x, y);
            Established(x', y') && Established(y', x')
  {
    hide Increment, DataInFlight, AcksInFlight, Counted, Accept, See, OnLine, ChannelField, Acknowledges, LeConsistent;
    var w := y.wire[0];
    EstablishedConsistent(x, y);
    AcceptedFrame(x.link, See(w.frame));
    NoSpuriousReset(x, y);
    SeeFields(w.frame);
    if Accept(x.link, See(w.frame)).delivered {
      DeliveryIsNext(x, y);
    }
  }

  // ---------- every move keeps the invariant ----------

  lemma LosingWire(x: Side, i: nat)
    requires i < |x.wire|
    ensures forall j :: 0 <= j < |Losing(x, i).wire| ==>
              Losing(x, i).wire[j] == x.wire[if j < i then j else j + 1]
  {
  }

  lemma LoseKeepsInFlight(x: Side, y: Side, i: nat)
    requires DataInFlight(x, y) && AcksInFlight(y, x) && i < |x.wire|
    ensures DataInFlight(Losing(x, i), y) && AcksInFlight(y, Losing(x, i))
  {
    hide Increment, OnLine, IsData;
    LosingWire(x, i);
  }

  lemma LoseKeepsEstablished(x: Side, y: Side, i: nat)
    requires Established(x, y) && i < |x.wire|
    ensures Established(Losing(x, i), y)
  {
    hide Increment, See, LeConsistent;
    LosingWire(x, i);
  }

  /** The counts, what y has in flight and what it may still send depend on x's history, not on its wire. */
  lemma WireDoesNotMatter(x: Side, y: Side, x': Side)
    requires Both(x, y)
    requires x' == x.(wire := x'.wire)
    ensures Counted(x', y) && Counted(y, x') && DataInFlight(y, x') && AcksInFlight(x', y) && Established(y, x')
  {
    hide Increment, See, OnLine, ChannelField, LeConsistent, IsData, IsEarly, IsLeKind;
  }

  lemma LoseKeeps(x: Side, y: Side, i: nat)
    requires Both(x, y) && i < |x.wire|
    ensures Both(Losing(x, i), y)
  {
    hide Counted, DataInFlight, AcksInFlight, Established;
    WireDoesNotMatter(x, y, Losing(x, i));
    LoseKeepsInFlight(x, y, i);
    LoseKeepsEstablished(x, y, i);
  }

  lemma AckRequestKeepsHalf(x: Side, y: Side, b: bool)
    requires Half(x, y)
    ensures Half(x.(link := x.link.(sendAck := b)), y)
  {
    hide Increment, See, OnLine, ChannelField, IsData, IsEarly, IsLeKind;
  }

  lemma AckRequestKeepsOtherHalf(x: Side, y: Side, b: bool)
    requires Half(y, x)
    ensures Half(y, x.(link := x.link.(sendAck := b)))
  {
    hide Increment, See, OnLine, ChannelField, IsData, IsEarly, IsLeKind;
  }

  lemma SubmitKeepsData(x: Side, y: Side, p: Packet)
    requires Counted(x, y) && DataInFlight(x, y) && MaySubmit(p)
    ensures Counted(Submitting(x, p), y) && DataInFlight(Submitting(x, p), y)
  {
    hide Increment, ChannelField, IsData;
    forall i | 0 <= i < |x.wire| ensures GenuineData(Submitting(x, p), y, x.wire[i]) {
      assert GenuineData(x, y, x.wire[i]);
    }
  }

  lemma SubmitKeepsRest(x: Side, y: Side, p: Packet)
    requires AcksInFlight(x, y) && Established(x, y)
    ensures AcksInFlight(Submitting(x, p), y) && Established(Submitting(x, p), y)
  {
    hide Increment, OnLine, IsData, IsEarly, IsLeKind, IsLe;
  }

  lemma SubmitKeepsOtherHalf(x: Side, y: Side, p: Packet)
    requires Half(y, x)
    ensures Half(y, Submitting(x, p))
  {
    hide Increment, OnLine, ChannelField, IsData, IsEarly, IsLeKind, IsLe;
  }

  lemma PartsOfHalf(x: Side, y: Side)
    requires Half(x, y)
    ensures Counted(x, y) && DataInFlight(x, y) && AcksInFlight(x, y) && Established(x, y)
  {
  }

  lemma MoveKeeps(x: Side, y: Side, e: Event)
    requires Both(x, y) && Enabled(x, y, e)
    ensures Both(Moved(x, y, e).0, Moved(x, y, e).1)
  {
    hide Half, OnLine, NextFrame;
    PartsOfHalf(x, y);
    match e
    case Starts => StartKeeps(x, y);
    case Finishes =>
      FinishIsSilent(x, y);
      assert x.(link := x.link) == x;
    case Submits(p) =>
      SubmitKeepsData(x, y, p);
      SubmitKeepsRest(x, y, p);
      HalfOfParts(Submitting(x, p), y);
      SubmitKeepsOtherHalf(x, y, p);
    case Receives =>
      ReceiveKeepsCounts(x, y);
      ReceiveKeepsData(x, y);
      ReceiveKeepsAcks(x, y);
      ReceiveKeepsEstablished(x, y);
      var (x', y') := AfterReceiving(x, y);
      HalfOfParts(x', y');
      HalfOfParts(y', x');
    case Noise =>
      AckRequestKeepsHalf(x, y, true);
      AckRequestKeepsOtherHalf(x, y, true);
    case Loses(i) => LoseKeeps(x, y, i);
  }

  lemma HalfOfParts(x: Side, y: Side)
    requires Counted(x, y) && DataInFlight(x, y) && AcksInFlight(x, y) && Established(x, y)
    ensures Half(x, y)
  {
  }

  lemma FinishIsSilent(x: Side, y: Side)
    requires Both(x, y)
    ensures FinishFrame(x.link) == x.link
  {
  }

  // ---------- what holds in every reachable state ----------

  lemma {:induction false} InvariantHolds(s: System, moves: seq<Move>)
    requires Both(s.a, s.b) && Valid(moves, s)
    ensures Both(Final(moves, s).a, Final(moves, s).b)
    decreases moves
  {
    hide Both, Moved, Enabled;
    if moves != [] {
      var m := moves[0];
      BothSwaps(s.a, s.b);
      if m.byA {
        MoveKeeps(s.a, s.b, m.event);
      } else {
        MoveKeeps(s.b, s.a, m.event);
        BothSwaps(Moved(s.b, s.a, m.event).0, Moved(s.b, s.a, m.event).1);
      }
      InvariantHolds(Step(s, m), moves[1..]);
    }
  }

  lemma BothSwaps(x: Side, y: Side)
    ensures Both(x, y) <==> Both(y, x)
  {
  }

  lemma FreshIsValid(x: Side, y: Side)
    requires Fresh(x) && Fresh(y)
    ensures Both(x, y)
  {
    hide Increment;
  }

  /** In order and once for every number, in both directions, whatever is lost and whatever the hosts replace: y
      delivers one of the packets that x was given under each number, x retires the numbers that y has delivered,
      and the two differ by at most one. */
  predicate OncePerNumber(x: Side, y: Side) {
    && OneOfEach(y.delivered, x.submitted)
    && x.retired <= |y.delivered| <= x.retired + 1
    && x.retired <= |x.submitted| <= x.retired + 1
  }

  lemma OncePerNumberDelivery(s: System, moves: seq<Move>)
    requires Fresh(s.a) && Fresh(s.b) && Valid(moves, s)
    ensures var t := Final(moves, s);
            OncePerNumber(t.a, t.b) && OncePerNumber(t.b, t.a)
  {
    hide DataInFlight, AcksInFlight, Established;
    FreshIsValid(s.a, s.b);
    InvariantHolds(s, moves);
  }

  /** Everything a host handed over, in order. */
  function HandedOver(submitted: seq<seq<Packet>>): seq<Packet> {
    if submitted == [] then [] else HandedOver(submitted[..|submitted| - 1]) + submitted[|submitted| - 1]
  }

  predicate Singles(submitted: seq<seq<Packet>>) {
    forall k :: 0 <= k < |submitted| ==> |submitted[k]| == 1
  }

  lemma {:induction false} SinglesHandedOver(submitted: seq<seq<Packet>>)
    requires Singles(submitted)
    ensures |HandedOver(submitted)| == |submitted|
    ensures forall k :: 0 <= k < |submitted| ==> submitted[k] == [HandedOver(submitted)[k]]
  {
    if submitted != [] {
      SinglesHandedOver(submitted[..|submitted| - 1]);
    }
  }

  /** No host submits a packet while another one is pending. */
  ghost predicate Patient(moves: seq<Move>, s: System)
    requires Valid(moves, s)
    decreases moves
  {
    moves != [] ==>
      && (moves[0].event.Submits? ==> Me(s, moves[0].byA).link.out.None?)
      && Patient(moves[1..], Step(s, moves[0]))
  }

  lemma {:induction false} PatientSingles(s: System, moves: seq<Move>)
    requires Valid(moves, s) && Patient(moves, s) && Singles(s.a.submitted) && Singles(s.b.submitted)
    ensures Singles(Final(moves, s).a.submitted) && Singles(Final(moves, s).b.submitted)
    decreases moves
  {
    hide NextFrame, Accept, See, OnLine;
    if moves != [] {
      PatientSingles(Step(s, moves[0]), moves[1..]);
    }
  }

  /** Exactly once and in order: what y has delivered is a prefix of what x's host handed over. */
  predicate ExactlyOnce(x: Side, y: Side) {
    && y.delivered <= HandedOver(x.submitted)
    && x.retired <= |y.delivered| <= x.retired + 1
    && x.retired <= |HandedOver(x.submitted)| <= x.retired + 1
  }

  lemma OncePerNumberIsOnce(x: Side, y: Side)
    requires OncePerNumber(x, y) && Singles(x.submitted)
    ensures ExactlyOnce(x, y)
  {
    SinglesHandedOver(x.submitted);
  }

  /** With hosts that submit only when nothing is pending, in both directions and whatever is lost: delivered is a
      prefix of handed over, retired a prefix of delivered, and they differ by at most one. */
  lemma ExactlyOnceDelivery(s: System, moves: seq<Move>)
    requires Fresh(s.a) && Fresh(s.b) && Valid(moves, s) && Patient(moves, s)
    ensures var t := Final(moves, s);
            ExactlyOnce(t.a, t.b) && ExactlyOnce(t.b, t.a)
  {
    hide OncePerNumber, ExactlyOnce, Valid, Final;
    OncePerNumberDelivery(s, moves);
    PatientSingles(s, moves);
    OncePerNumberIsOnce(Final(moves, s).a, Final(moves, s).b);
    OncePerNumberIsOnce(Final(moves, s).b, Final(moves, s).a);
  }

  // ---------- hosts that keep to the contract ----------

  /** Whether the engine that moves reports a packet as sent. */
  predicate ReportsSent(s: System, m: Move)
    requires Possible(s, m)
  {
    m.event.Receives? && Accept(Me(s, m.byA).link, See(Peer(s, m.byA).wire[0].frame)).activity.sent
  }

  /** A side's host may submit once its engine has reported a packet as sent, and until it has done so. */
  predicate MayAfter(s: System, m: Move, isA: bool, may: bool)
    requires Possible(s, m)
  {
    if m.byA != isA then may
    else !m.event.Submits? && (may || ReportsSent(s, m))
  }

  /** Every packet is submitted after a report that the last one was sent, the first one after the first report. */
  ghost predicate Obeys(s: System, moves: seq<Move>, mayA: bool, mayB: bool)
    requires Valid(moves, s)
    decreases moves
  {
    moves != [] ==>
      && (moves[0].event.Submits? ==> if moves[0].byA then mayA else mayB)
      && Obeys(Step(s, moves[0]), moves[1..], MayAfter(s, moves[0], true, mayA), MayAfter(s, moves[0], false, mayB))
  }

  /** A host that may submit finds nothing pending, and before the link is active there is no report. */
  predicate Calm(l: Link, may: bool) {
    (may ==> l.out.None?) && (l.le != ACTIVE ==> l.out.None? && !may)
  }

  lemma AcceptKeepsCalm(l: Link, s: Seen, may: bool)
    requires Calm(l, may) && !Accept(l, s).reset
    ensures Calm(Accept(l, s).link, may || Accept(l, s).activity.sent)
  {
    hide Increment;
  }

  lemma StartKeepsCalm(l: Link, may: bool)
    requires Calm(l, may)
    ensures Calm(NextFrame(l).link, may) && Calm(FinishFrame(l), may)
  {
    hide NextLePacket, LeFrame;
  }

  lemma MoveKeepsCalm(s: System, m: Move, isA: bool, may: bool)
    requires Both(s.a, s.b) && Possible(s, m) && Calm(Me(s, isA).link, may)
    requires m.byA == isA && m.event.Submits? ==> may
    ensures Calm(Me(Step(s, m), isA).link, MayAfter(s, m, isA, may))
  {
    hide Both, Accept, See, NextFrame, FinishFrame, Filed, OnLine;
    BothSwaps(s.a, s.b);
    var x, y := Me(s, isA), Peer(s, isA);
    StartKeepsCalm(x.link, may);
    if m.byA == isA && m.event.Receives? {
      NoSpuriousReset(x, y);
      AcceptKeepsCalm(x.link, See(y.wire[0].frame), may);
    }
  }

  lemma {:induction false} ObeysIsPatient(s: System, moves: seq<Move>, mayA: bool, mayB: bool)
    requires Both(s.a, s.b) && Valid(moves, s) && Obeys(s, moves, mayA, mayB)
    requires Calm(s.a.link, mayA) && Calm(s.b.link, mayB)
    ensures Patient(moves, s)
    decreases moves
  {
    hide Both, Moved, Enabled, MayAfter;
    if moves != [] {
      var m := moves[0];
      MoveKeepsCalm(s, m, true, mayA);
      MoveKeepsCalm(s, m, false, mayB);
      BothSwaps(s.a, s.b);
      if m.byA {
        MoveKeeps(s.a, s.b, m.event);
      } else {
        MoveKeeps(s.b, s.a, m.event);
        BothSwaps(Moved(s.b, s.a, m.event).0, Moved(s.b, s.a, m.event).1);
      }
      ObeysIsPatient(Step(s, m), moves[1..], MayAfter(s, m, true, mayA), MayAfter(s, m, false, mayB));
    }
  }

  /** The contract that the engine asks of its host is enough: with hosts that submit every packet, the first one
      included, only after a report that a packet was sent, delivery is exactly once and in order. */
  lemma ContractDelivers(s: System, moves: seq<Move>)
    requires Fresh(s.a) && Fresh(s.b) && Valid(moves, s) && Obeys(s, moves, false, false)
    ensures var t := Final(moves, s);
            ExactlyOnce(t.a, t.b) && ExactlyOnce(t.b, t.a)
  {
    hide Both, Valid, Final, Obeys, Patient, ExactlyOnce;
    FreshIsValid(s.a, s.b);
    ObeysIsPatient(s, moves, false, false);
    ExactlyOnceDelivery(s, moves);
  }

  /** It does not help to wait for a report if something was submitted before the first one: the CONF RESP that makes
      the link active reports a packet as sent, whatever is pending, and the packet submitted then takes the place and
      the number of the one that was never sent. */
  lemma EarlySubmissionIsReplaced(x: Side, y: Side, q: Packet)
    requires y.wire != [] && IsLeKind(y.wire[0].frame, CONF_RESP) && y.wire[0].frame.ackNo == x.link.seqNo
    requires x.link.le != ACTIVE && x.link.out.Some? && x.submitted != []
    ensures Accept(x.link, See(y.wire[0].frame)).activity.sent
    ensures var z := Submitting(AfterReceiving(x, y).0, q);
            && |z.submitted| == |x.submitted|
            && z.submitted[|z.submitted| - 1] == x.submitted[|x.submitted| - 1] + [OnLine(q)]
  {
    hide Increment, See, OnLine;
    SeeFields(y.wire[0].frame);
  }

  /** One side of the system, and the other one. */
  function Me(s: System, isA: bool): Side { if isA then s.a else s.b }

  function Peer(s: System, isA: bool): Side { if isA then s.b else s.a }

  lemma ReachableBoth(s: System, moves: seq<Move>, isA: bool)
    requires Fresh(s.a) && Fresh(s.b) && Valid(moves, s)
    ensures Both(Me(Final(moves, s), isA), Peer(Final(moves, s), isA))
  {
    FreshIsValid(s.a, s.b);
    InvariantHolds(s, moves);
    BothSwaps(Final(moves, s).a, Final(moves, s).b);
  }

  /** The numbers wrap after eight packets but never mislead: in every reachable state an acknowledgement in
      flight is for n or n + 1 packets, n being the number retired by its receiver, and a data frame in
      flight carries packet m - 1 or m, m being the number its receiver has delivered. */
  lemma WindowInvariant(s: System, moves: seq<Move>, isA: bool, i: nat)
    requires Fresh(s.a) && Fresh(s.b) && Valid(moves, s)
    requires i < |Me(Final(moves, s), isA).wire|
    ensures var x, y, w := Me(Final(moves, s), isA), Peer(Final(moves, s), isA), Me(Final(moves, s), isA).wire[i];
            && y.retired <= w.ackCount <= y.retired + 1 && w.frame.ackNo == Wrap(w.ackCount)
            && (IsData(w.frame) ==>
                  && |y.delivered| - 1 <= w.dataNo <= |y.delivered| && w.dataNo < |x.submitted|
                  && w.frame.seqNo == Wrap(w.dataNo)
                  && Packet(w.frame.channel, w.frame.reliable, w.frame.payload) in x.submitted[w.dataNo])
  {
    hide Established, Final, Valid, ChannelField, Increment;
    ReachableBoth(s, moves, isA);
    var x, y := Me(Final(moves, s), isA), Peer(Final(moves, s), isA);
    assert GenuineData(x, y, x.wire[i]);
  }

  /** No false acknowledgement and no spurious reset: a link establishment frame, whose acknowledgement field is
      0, arrives only while the receiver has retired nothing, so it retires nothing; and no frame that
      arrives makes the receiver believe that its peer has restarted. */
  lemma NoFalseAckNoReset(s: System, moves: seq<Move>, isA: bool)
    requires Fresh(s.a) && Fresh(s.b) && Valid(moves, s) && Peer(Final(moves, s), isA).wire != []
    ensures var x, f := Me(Final(moves, s), isA), Peer(Final(moves, s), isA).wire[0].frame;
            && !Accept(x.link, See(f)).reset
            && (IsLe(f) ==> x.retired == 0 && x.link.seqNo == 0 && !Accept(x.link, See(f)).retired)
  {
    hide Increment, See, OnLine, ChannelField, LeConsistent, DataInFlight, Acknowledges, Final, Valid;
    ReachableBoth(s, moves, isA);
    var x, y := Me(Final(moves, s), isA), Peer(Final(moves, s), isA);
    NoSpuriousReset(x, y);
    AckTestIsRight(x, y);
    EstablishedConsistent(x, y);
    AcceptedFrame(x.link, See(y.wire[0].frame));
    if IsLe(y.wire[0].frame) {
      EstablishedLe(y, x, 0);
    }
  }

  /** Handshake agreement: if one engine is active the other is at least initialized; a CONF RESP in flight was
      sent by an engine that is at least initialized; and no SYNC is on its way to an active engine, nor
      behind a CONF RESP that would make its receiver active. */
  lemma HandshakeAgreement(s: System, moves: seq<Move>, isA: bool)
    requires Fresh(s.a) && Fresh(s.b) && Valid(moves, s)
    ensures var x, y := Me(Final(moves, s), isA), Peer(Final(moves, s), isA);
            && (y.link.le == ACTIVE ==> x.link.le >= INITIALIZED)
            && (y.link.le == ACTIVE ==> forall i :: 0 <= i < |x.wire| ==> !IsLeKind(x.wire[i].frame, SYNC))
            && (forall i :: 0 <= i < |x.wire| && IsLeKind(x.wire[i].frame, CONF_RESP) ==>
                  && x.link.le >= INITIALIZED
                  && forall j :: i < j < |x.wire| ==> !IsLeKind(x.wire[j].frame, SYNC))
  {
    hide Counted, DataInFlight, AcksInFlight, Final, Valid;
    ReachableBoth(s, moves, isA);
  }

  lemma MoveKeepsState(x: Side, y: Side, e: Event)
    requires Both(x, y) && Enabled(x, y, e)
    ensures Moved(x, y, e).0.link.le >= x.link.le && Moved(x, y, e).1.link.le == y.link.le
  {
    hide Increment, See, NextLePacket, LeFrame, Counted, DataInFlight, AcksInFlight, Accept;
    EstablishedConsistent(x, y);
    hide Established;
    if e.Receives? {
      NoSpuriousReset(x, y);
      AcceptedFrame(x.link, See(y.wire[0].frame));
    }
  }

  /** The link state never goes back. */
  lemma LinkNeverDecreases(s: System, moves: seq<Move>, m: Move)
    requires Fresh(s.a) && Fresh(s.b) && Valid(moves, s) && Possible(Final(moves, s), m)
    ensures var t := Final(moves, s);
            Step(t, m).a.link.le >= t.a.link.le && Step(t, m).b.link.le >= t.b.link.le
  {
    hide Both, Moved, Final, Valid;
    var t := Final(moves, s);
    ReachableBoth(s, moves, m.byA);
    MoveKeepsState(Me(t, m.byA), Peer(t, m.byA), m.event);
  }
}
