/** Whole sessions of one engine at the octet level: any interleaving of polls and host calls. Every session is a
    run of the frame level, so what FrameLevelRuns proves of one engine holds of it octet by octet. */
module Sessions {
  import opened Crc
  import opened Framing
  import opened FrameLevel
  import opened FrameLevelRuns
  import opened EngineSpec
  import opened Transmission
  import FrameReception
  import Slip

  // ---------- what one poll does to the link ----------

  lemma ReceiveOctetIsRun(s: State, r: Slip.Reading)
    requires ValidState(s) && s.rx.buffer.Some?
    ensures var p := ReceiveOctet(s, r);
            && p.state.link == Run(s.link, p.actions)
            && (p.actions == [] || (|p.actions| == 1 && (p.actions[0].Accepted? || p.actions[0].Rejected?)))
            && (p.delivered.Some? <==> p.actions != [] && Delivers(s.link, p.actions[0]))
  {
    hide Intact, Accept, WhichLe, DecodeHeader, Store, Slip.Decode, PayloadOf;
    var p := ReceiveOctet(s, r);
    if p.actions != [] {
      RunOne(s.link, p.actions[0]);
    }
  }

  /** The frame hands its payload to the host. */
  predicate Delivers(l: Link, a: Action) {
    a.Accepted? && Accept(l, a.seen).delivered
  }

  lemma RunOne(l: Link, a: Action)
    ensures Run(l, [a]) == Act(l, a)
  {
    hide Act;
    assert [a][1..] == [];
    assert Run(Act(l, a), []) == Act(l, a);
  }

  predicate Incoming(actions: seq<Action>) {
    forall i :: 0 <= i < |actions| ==> actions[i].Accepted? || actions[i].Rejected?
  }

  lemma {:induction false} ReceiveIsRun(s: State, input: seq<Slip.Reading>)
    requires ValidState(s)
    ensures var r := Receive(s, input);
            r.state.link == Run(s.link, r.actions) && Incoming(r.actions)
    decreases input
  {
    hide ReceiveOctet, ValidState, Act;
    if s.rx.buffer.Some? && input != [] {
      var p := ReceiveOctet(s, input[0]);
      ReceiveOctetIsValid(s, input[0]);
      ReceiveOctetIsRun(s, input[0]);
      ReceiveIsRun(p.state, input[1..]);
      RunConcat(s.link, p.actions, Receive(p.state, input[1..]).actions);
    }
  }

  lemma TransmitIsRun(s: State)
    requires ValidState(s)
    ensures var t := TransmitIfDue(s);
            t.state.link == Run(s.link, t.actions) && t.actions in {[], [Start], [Finish]}
  {
    hide Advance, NextFrame, FinishFrame, Setup, EncodeHeader, HeaderOf;
    RunOne(s.link, Start);
    RunOne(s.link, Finish);
  }

  /** The link after a poll is the link after the frame-level actions of that poll: at most one frame started or
      finished, and then the frames received. */
  lemma PollIsRun(s: State, input: seq<Slip.Reading>)
    requires ValidState(s)
    ensures var p := Poll(s, input);
            && p.state.link == Run(s.link, p.actions)
            && exists out: seq<Action>, incoming: seq<Action> ::
                 p.actions == out + incoming && out in {[], [Start], [Finish]} && Incoming(incoming)
  {
    hide TransmitIfDue, Receive, ValidState, Run;
    TransmitIsValid(s);
    TransmitIsRun(s);
    var t := TransmitIfDue(s);
    if t.early {
      assert t.actions == t.actions + [];
      assert Incoming([]);
    } else {
      ReceiveIsRun(t.state, input);
      RunConcat(s.link, t.actions, Receive(t.state, input).actions);
    }
  }

  // ---------- at most one of each per poll ----------

  function Retirements(l: Link, actions: seq<Action>): nat
    decreases actions
  {
    if actions == [] then 0
    else (if Retires(l, actions[0]) then 1 else 0) + Retirements(Act(l, actions[0]), actions[1..])
  }

  function Deliveries(l: Link, actions: seq<Action>): nat
    decreases actions
  {
    if actions == [] then 0
    else (if Delivers(l, actions[0]) then 1 else 0) + Deliveries(Act(l, actions[0]), actions[1..])
  }

  lemma IncomingKeepsOut(l: Link, a: Action)
    requires a.Accepted? || a.Rejected?
    ensures Act(l, a).out == (if Retires(l, a) then None else l.out)
    ensures Retires(l, a) ==> l.out.Some?
  {
    hide Increment;
  }

  lemma {:induction false} IncomingRetiresOnce(l: Link, actions: seq<Action>)
    requires Incoming(actions)
    ensures Retirements(l, actions) <= (if l.out.Some? then 1 else 0)
    decreases actions
  {
    hide Act, Retires;
    if actions != [] {
      IncomingKeepsOut(l, actions[0]);
      IncomingRetiresOnce(Act(l, actions[0]), actions[1..]);
    }
  }

  lemma {:induction false} ReceiveDeliversOnce(s: State, input: seq<Slip.Reading>)
    requires ValidState(s)
    ensures var r := Receive(s, input);
            && Deliveries(s.link, r.actions) <= (if s.rx.buffer.Some? then 1 else 0)
            && (r.delivered.Some? <==> Deliveries(s.link, r.actions) == 1)
    decreases input
  {
    hide ReceiveOctet, ValidState, Act, Delivers;
    if s.rx.buffer.Some? && input != [] {
      var p := ReceiveOctet(s, input[0]);
      ReceiveOctetIsValid(s, input[0]);
      ReceiveOctetIsRun(s, input[0]);
      ReceiveDeliversOnce(p.state, input[1..]);
      var rest := Receive(p.state, input[1..]).actions;
      if p.actions == [] {
        assert p.actions + rest == rest;
        assert p.state.link == s.link;
      } else {
        RunOne(s.link, p.actions[0]);
        assert p.actions == [p.actions[0]];
        assert (p.actions + rest)[0] == p.actions[0] && (p.actions + rest)[1..] == rest;
      }
    }
  }

  lemma OutgoingCountsNothing(l: Link, out: seq<Action>, rest: seq<Action>)
    requires out in {[], [Start], [Finish]}
    ensures Retirements(l, out + rest) == Retirements(Run(l, out), rest)
    ensures Deliveries(l, out + rest) == Deliveries(Run(l, out), rest)
  {
    hide Act;
    if out == [] {
      assert out + rest == rest;
    } else {
      RunOne(l, out[0]);
      assert out == [out[0]];
      assert (out + rest)[0] == out[0] && (out + rest)[1..] == rest;
    }
  }

  /** A poll retires at most one packet and delivers at most one, and it reports a delivery exactly when the link
      makes one. */
  lemma AtMostOnePerPoll(s: State, input: seq<Slip.Reading>)
    requires ValidState(s)
    ensures var p := Poll(s, input);
            && Retirements(s.link, p.actions) <= 1 && Deliveries(s.link, p.actions) <= 1
            && (p.delivered.Some? <==> Deliveries(s.link, p.actions) == 1)
  {
    hide TransmitIfDue, Receive, ValidState, Run, Retirements, Deliveries;
    TransmitIsValid(s);
    TransmitIsRun(s);
    var t := TransmitIfDue(s);
    if t.early {
      OutgoingCountsNothing(s.link, t.actions, []);
      assert t.actions + [] == t.actions;
      NothingCounts(t.state.link);
    } else {
      var r := Receive(t.state, input);
      OutgoingCountsNothing(s.link, t.actions, r.actions);
      ReceiveIsRun(t.state, input);
      IncomingRetiresOnce(t.state.link, r.actions);
      ReceiveDeliversOnce(t.state, input);
    }
  }

  lemma NothingCounts(l: Link)
    ensures Retirements(l, []) == 0 && Deliveries(l, []) == 0
  {
  }

  // ---------- what "received" means ----------

  lemma PayloadLength(header: seq<Octet>, stored: seq<Octet>)
    requires |header| == 4 && Intact(header, stored)
    ensures |PayloadOf(header, stored)| == DecodeHeader(header).length
  {
    hide DecodeHeader, ChecksumHolds, CrcOctets;
  }

  lemma ReceiveOctetReceived(s: State, r: Slip.Reading)
    requires ValidState(s) && s.rx.buffer.Some?
    ensures var p := ReceiveOctet(s, r);
            && (p.activity.received <==> p.delivered.Some?)
            && (p.delivered.Some? ==> p.delivered.value.payload != [])
            && (p.state.rx.buffer.Some? <==> p.delivered.None?)
  {
    hide Intact, WhichLe, DecodeHeader, Slip.Decode, Increment, Retire, Stored, PayloadOf;
    if s.rx.index >= 0 && Intact(s.rx.header, Stored(s.rx)) {
      PayloadLength(s.rx.header, Stored(s.rx));
    }
  }

  lemma {:induction false} ReceiveReceived(s: State, input: seq<Slip.Reading>)
    requires ValidState(s)
    ensures var r := Receive(s, input);
            && (r.activity.received <==> r.delivered.Some?)
            && (r.delivered.Some? ==> r.delivered.value.payload != [])
            && (r.state.rx.buffer.Some? <==> s.rx.buffer.Some? && r.delivered.None?)
    decreases input
  {
    hide Receive, ReceiveOctet, ValidState;
    if s.rx.buffer.Some? && input != [] {
      ReceiveFirst(s, input);
      ReceiveOctetReceived(s, input[0]);
      ReceiveReceived(ReceiveOctet(s, input[0]).state, input[1..]);
    } else {
      ReadNothing(s, input);
    }
  }

  /** A poll reports a packet as received if and only if it hands one over; that packet is not empty, and only then is
      there nothing left to receive into. */
  lemma ReceivedMeans(s: State, input: seq<Slip.Reading>)
    requires ValidState(s)
    ensures var p := Poll(s, input);
            && (p.activity.received <==> p.delivered.Some?)
            && (p.delivered.Some? ==> p.delivered.value.payload != [])
            && (p.state.rx.buffer.Some? <==> s.rx.buffer.Some? && p.delivered.None?)
  {
    hide TransmitIfDue, Receive, ValidState;
    TransmitIsValid(s);
    if !TransmitIfDue(s).early {
      ReceiveReceived(TransmitIfDue(s).state, input);
    }
  }

  // ---------- what "sent" means ----------

  /** The pending packet was acknowledged or, if it is unreliable, a frame was finished; or the link became active. A
      frame that resets the link reports nothing else, even if it has retired the pending packet. */
  predicate ReportedSent(l: Link, a: Action) {
    || (a.Accepted? && !Resets(l, a) && (Retires(l, a) || (l.le != ACTIVE && Act(l, a).le == ACTIVE)))
    || (a.Finish? && l.out.Some? && !l.out.value.reliable)
  }

  predicate SomeReportedSent(l: Link, actions: seq<Action>)
    decreases actions
  {
    actions != [] && (ReportedSent(l, actions[0]) || SomeReportedSent(Act(l, actions[0]), actions[1..]))
  }

  lemma AcceptReportsSent(l: Link, s: Seen)
    ensures Accept(l, s).activity.sent <==> ReportedSent(l, Accepted(s))
  {
    hide Increment;
  }

  lemma ReceiveOctetReportsSent(s: State, r: Slip.Reading)
    requires ValidState(s) && s.rx.buffer.Some?
    ensures var p := ReceiveOctet(s, r);
            p.activity.sent <==> p.actions != [] && ReportedSent(s.link, p.actions[0])
  {
    hide Intact, Accept, WhichLe, DecodeHeader, Store, Slip.Decode, PayloadOf, ReportedSent;
    var p := ReceiveOctet(s, r);
    if p.actions != [] && p.actions[0].Accepted? {
      AcceptReportsSent(s.link, p.actions[0].seen);
    }
    RejectedReportsNothing(s.link);
  }

  lemma RejectedReportsNothing(l: Link)
    ensures !ReportedSent(l, Rejected)
  {
  }

  lemma {:induction false} ReceiveReportsSent(s: State, input: seq<Slip.Reading>)
    requires ValidState(s)
    ensures Receive(s, input).activity.sent <==> SomeReportedSent(s.link, Receive(s, input).actions)
    decreases input
  {
    hide ReceiveOctet, ValidState, Act, ReportedSent;
    if s.rx.buffer.Some? && input != [] {
      var p := ReceiveOctet(s, input[0]);
      ReceiveOctetIsValid(s, input[0]);
      ReceiveOctetIsRun(s, input[0]);
      ReceiveOctetReportsSent(s, input[0]);
      ReceiveReportsSent(p.state, input[1..]);
      var rest := Receive(p.state, input[1..]).actions;
      if p.actions == [] {
        assert p.actions + rest == rest && p.state.link == s.link;
      } else {
        RunOne(s.link, p.actions[0]);
        assert p.actions == [p.actions[0]];
        assert (p.actions + rest)[0] == p.actions[0] && (p.actions + rest)[1..] == rest;
      }
    }
  }

  lemma TransmitReportsSent(s: State, rest: seq<Action>)
    requires ValidState(s)
    ensures var t := TransmitIfDue(s);
            SomeReportedSent(s.link, t.actions + rest) <==> t.sent || SomeReportedSent(t.state.link, rest)
  {
    hide Advance, NextFrame, FinishFrame, Setup, EncodeHeader, HeaderOf, Act, SomeReportedSent;
    var t := TransmitIfDue(s);
    TransmitIsRun(s);
    if t.actions == [] {
      assert t.actions + rest == rest;
    } else {
      RunOne(s.link, t.actions[0]);
      assert t.actions == [t.actions[0]];
      assert (t.actions + rest)[0] == t.actions[0] && (t.actions + rest)[1..] == rest;
      FirstReportedSent(s.link, t.actions + rest);
      DropReportsSent(s.link);
    }
  }

  lemma FirstReportedSent(l: Link, actions: seq<Action>)
    requires actions != []
    ensures SomeReportedSent(l, actions) <==>
            ReportedSent(l, actions[0]) || SomeReportedSent(Act(l, actions[0]), actions[1..])
  {
    hide Act, ReportedSent;
  }

  lemma DropReportsSent(l: Link)
    ensures l.out.Some? && FinishFrame(l).out.None? <==> ReportedSent(l, Finish)
    ensures !ReportedSent(l, Start)
  {
  }

  /** A poll reports a packet as sent if and only if during it a reliable packet was retired by a frame that did not
      reset the link, or an unreliable one was dropped, or the link became active; so "sent" does not mean that the
      pending packet is gone. */
  lemma SentMeans(s: State, input: seq<Slip.Reading>)
    requires ValidState(s)
    ensures Poll(s, input).activity.sent <==> SomeReportedSent(s.link, Poll(s, input).actions)
  {
    hide TransmitIfDue, Receive, ValidState, SomeReportedSent;
    TransmitIsValid(s);
    var t := TransmitIfDue(s);
    if t.early {
      TransmitReportsSent(s, []);
      assert t.actions + [] == t.actions;
      EarlyReportsNothing(s);
    } else {
      TransmitReportsSent(s, Receive(t.state, input).actions);
      ReceiveReportsSent(t.state, input);
    }
  }

  lemma EarlyReportsNothing(s: State)
    requires ValidState(s)
    ensures TransmitIfDue(s).early ==> !TransmitIfDue(s).sent
    ensures forall l :: !SomeReportedSent(l, [])
  {
  }

  /** The two ends of that: a CONF RESP reports "sent" with the packet still pending, and a SYNC that resets an active
      link throws a pending packet away without reporting it, its acknowledgement field being 0. */
  lemma SentIsNotRetired(l: Link, s: Seen)
    requires s.channel == LE_CHANNEL && s.ackNo == 0 && l.out.Some? && l.out.value.reliable
    ensures l.le != ACTIVE && l.seqNo == 0 && s.le == CONF_RESP ==>
              Accept(l, s).activity.sent && Accept(l, s).link.out == l.out
    ensures l.le == ACTIVE && l.seqNo != 0 && s.le == SYNC ==>
              !Accept(l, s).activity.sent && Accept(l, s).link.out.None?
  {
    hide Increment;
  }

  // ---------- sessions ----------

  datatype Call =
    | Polls(arrived: seq<Slip.Reading>)   // octets arrive, and the host polls
    | Sends(packet: Packet)
    | Receives(buffer: Buffer)
    | Initializes

  predicate Proper(c: Call) {
    c.Receives? ==> ValidBuffer(c.buffer)
  }

  function Do(l: Line, c: Call): Line
    requires ValidState(l.state) && Proper(c)
  {
    match c
    case Polls(arrived) => PollLine(l, arrived)
    case Sends(p) => l.(state := SendPacket(l.state, p))
    case Receives(b) => l.(state := ReceivePacket(l.state, b))
    case Initializes => l.(state := InitializeEngine(l.state))
  }

  function ActionsOf(l: Line, c: Call): seq<Action>
    requires ValidState(l.state) && Proper(c)
  {
    match c
    case Polls(arrived) => Poll(l.state, l.pending + arrived).actions
    case Sends(p) => [Submitted(p)]
    case Receives(b) => []
    case Initializes => [Restarted]
  }

  lemma DoIsValid(l: Line, c: Call)
    requires ValidState(l.state) && Proper(c)
    ensures ValidState(Do(l, c).state)
  {
    hide Poll;
    if c.Polls? {
      PollIsValid(l.state, l.pending + c.arrived);
    }
  }

  lemma DoIsRun(l: Line, c: Call)
    requires ValidState(l.state) && Proper(c)
    ensures Do(l, c).state.link == Run(l.state.link, ActionsOf(l, c))
  {
    hide Poll, Act;
    match c
    case Polls(arrived) => PollIsRun(l.state, l.pending + arrived);
    case Sends(p) => RunOne(l.state.link, Submitted(p)); ActPlain(l.state.link, p);
    case Receives(b) =>
    case Initializes => RunOne(l.state.link, Restarted); ActPlain(l.state.link, Packet(0, false, []));
  }

  lemma ActPlain(l: Link, p: Packet)
    ensures Act(l, Submitted(p)) == Submit(l, p) && Act(l, Restarted) == Initialize(l)
  {
  }

  datatype Session = Session(line: Line, actions: seq<Action>)

  function Play(l: Line, calls: seq<Call>): (s: Session)
    requires ValidState(l.state) && forall i :: 0 <= i < |calls| ==> Proper(calls[i])
    ensures ValidState(s.line.state)
    decreases calls
  {
    if calls == [] then Session(l, [])
    else
      DoIsValid(l, calls[0]);
      var s := Play(Do(l, calls[0]), calls[1..]);
      Session(s.line, ActionsOf(l, calls[0]) + s.actions)
  }

  lemma PlayFirst(l: Line, c: Call, rest: seq<Call>)
    requires ValidState(l.state) && Proper(c) && forall i :: 0 <= i < |rest| ==> Proper(rest[i])
    ensures forall i :: 0 <= i < |[c] + rest| ==> Proper(([c] + rest)[i])
    ensures ValidState(Do(l, c).state) && Play(l, [c] + rest).line == Play(Do(l, c), rest).line
  {
    hide Do, ActionsOf, ValidState;
    DoIsValid(l, c);
    assert ([c] + rest)[1..] == rest;
  }

  lemma PlayNothing(l: Line)
    requires ValidState(l.state)
    ensures Play(l, []).line == l
  {
  }

  /** Every session is a run of the frame level. */
  lemma {:induction false} SessionIsRun(l: Line, calls: seq<Call>)
    requires ValidState(l.state) && forall i :: 0 <= i < |calls| ==> Proper(calls[i])
    ensures Play(l, calls).line.state.link == Run(l.state.link, Play(l, calls).actions)
    decreases calls
  {
    hide Do, ActionsOf, ValidState, Act;
    if calls != [] {
      DoIsValid(l, calls[0]);
      DoIsRun(l, calls[0]);
      SessionIsRun(Do(l, calls[0]), calls[1..]);
      RunConcat(l.state.link, ActionsOf(l, calls[0]), Play(Do(l, calls[0]), calls[1..]).actions);
    }
  }

  /** Over every session from an initialized engine: the sequence number is the number of reliable packets
      retired modulo 8, the acknowledgement number the number delivered in sequence modulo 8, and the delay
      stays between 0 and 25. */
  lemma SessionCounts(l: Line, calls: seq<Call>)
    requires ValidState(l.state) && forall i :: 0 <= i < |calls| ==> Proper(calls[i])
    requires l.state.link == Initialize(l.state.link)
    ensures var s := Play(l, calls);
            var t := TallyRun(Tally(l.state.link, 0, 0), s.actions);
            && s.line.state.link == t.link
            && s.line.state.link.seqNo as nat == t.retired % 8
            && s.line.state.link.ackNo as nat == t.delivered % 8
            && 0 <= s.line.state.delay <= 25
  {
    hide Play, TallyRun, Run;
    SessionIsRun(l, calls);
    CountersCount(Tally(l.state.link, 0, 0), Play(l, calls).actions);
  }

  /** Over every session in which no reset happens while a CONF RESP is pending: as long as the link is not active,
      the only frames the engine starts are link establishment frames. */
  lemma SessionEstablishes(l: Line, calls: seq<Call>)
    requires ValidState(l.state) && forall i :: 0 <= i < |calls| ==> Proper(calls[i])
    requires LeConsistent(l.state.link) && NoResetWhileConfirming(l.state.link, Play(l, calls).actions)
    ensures var m := Play(l, calls).line.state.link;
            && LeConsistent(m)
            && (NextFrame(m).frame.Some? && m.le != ACTIVE ==>
                  exists k: LePacket :: k < NONE && NextFrame(m).frame.value == LeFrame(k))
  {
    hide Play, NoResetWhileConfirming, Run, LeConsistent, NextFrame, LeFrame;
    SessionIsRun(l, calls);
    RunIsConsistent(l.state.link, Play(l, calls).actions);
  }

  /** Over every session from a state in which an acknowledgement is owed: it is still owed at the end, or at
      some moment a data or ack frame was started with the acknowledgement number of that moment. */
  lemma SessionOwesAck(l: Line, calls: seq<Call>)
    requires ValidState(l.state) && forall i :: 0 <= i < |calls| ==> Proper(calls[i])
    requires l.state.link.sendAck
    ensures var s := Play(l, calls);
            || s.line.state.link.sendAck
            || exists i :: 0 <= i < |s.actions| && s.actions[i].Start? && SendsAck(Run(l.state.link, s.actions[..i]))
  {
    hide Play, Run, SendsAck;
    SessionIsRun(l, calls);
    AckStaysOwed(l.state.link, Play(l, calls).actions);
  }

  /** Over every session in which a frame with the acknowledgement number is cut short by a packet the host sends: the
      next data or ack frame is that packet with the acknowledgement number of its moment, unless the packet is gone;
      then it is an ack frame exactly if one has been asked for again. */
  lemma SessionResendsAck(l: Line, calls: seq<Call>, first: seq<Action>, before: seq<Action>, p: Packet,
                          after: seq<Action>)
    requires ValidState(l.state) && forall i :: 0 <= i < |calls| ==> Proper(calls[i])
    requires Play(l, calls).actions == first + [Start] + before + [Submitted(p)] + after
    requires var started := Run(l.state.link, first + [Start]);
             && SendsAck(Run(l.state.link, first)) && Interim(started, before)
             && Interim(Submit(Run(started, before), p), after)
    requires DataOrAckNext(Play(l, calls).line.state.link)
    ensures var started := Run(l.state.link, first + [Start]);
            var cut, m := Submit(Run(started, before), p), Play(l, calls).line.state.link;
            NextFrame(m).frame ==
              if !SomeRemoves(cut, after) then Some(DataFrame(m, p))
              else if SomeRequests(started, before) || SomeRequests(cut, after) then Some(AckFrame(m))
              else None
    ensures var m := Play(l, calls).line.state.link;
            NextFrame(m).frame.Some? ==> NextFrame(m).frame.value.ackNo == m.ackNo
  {
    hide Play, Run, Act, Interim, SomeRemoves, SomeRequests, SendsAck, NextFrame, DataFrame, AckFrame, DataOrAckNext;
    SessionIsRun(l, calls);
    var k := l.state.link;
    RunConcat(k, first, [Start]);
    RunOne(Run(k, first), Start);
    RunConcat(k, first + [Start], before);
    RunConcat(k, first + [Start] + before, [Submitted(p)]);
    RunOne(Run(k, first + [Start] + before), Submitted(p));
    ActPlain(Run(k, first + [Start] + before), p);
    RunConcat(k, first + [Start] + before + [Submitted(p)], after);
    CutAckIsSentAgain(Run(k, first), before, p, after);
    DataOrAck(Play(l, calls).line.state.link);
  }

  // ---------- what cuts a frame short ----------

  /** A CONF RESP that makes the link active, or a SYNC that resets it. */
  predicate Cuts(l: Link, a: Action) {
    a.Accepted? && a.seen.channel == LE_CHANNEL &&
    ((a.seen.le == CONF_RESP && l.le != ACTIVE) || (a.seen.le == SYNC && l.le == ACTIVE))
  }

  predicate NothingCuts(l: Link, actions: seq<Action>)
    decreases actions
  {
    actions != [] ==> !Cuts(l, actions[0]) && NothingCuts(Act(l, actions[0]), actions[1..])
  }

  lemma ReceiveOctetCuts(s: State, r: Slip.Reading)
    requires ValidState(s) && s.rx.buffer.Some?
    ensures var p := ReceiveOctet(s, r);
            p.state.tx == if p.actions != [] && Cuts(s.link, p.actions[0]) then Idle(s.tx) else s.tx
  {
    hide Intact, WhichLe, DecodeHeader, Store, Slip.Decode, PayloadOf, Increment;
  }

  lemma {:induction false} ReceiveCuts(s: State, input: seq<Slip.Reading>)
    requires ValidState(s)
    ensures var r := Receive(s, input);
            r.state.tx == if NothingCuts(s.link, r.actions) then s.tx else Idle(s.tx)
    decreases input
  {
    hide ReceiveOctet, ValidState, Act, Cuts;
    if s.rx.buffer.Some? && input != [] {
      var p := ReceiveOctet(s, input[0]);
      ReceiveOctetIsValid(s, input[0]);
      ReceiveOctetIsRun(s, input[0]);
      ReceiveOctetCuts(s, input[0]);
      ReceiveCuts(p.state, input[1..]);
      var rest := Receive(p.state, input[1..]).actions;
      if p.actions == [] {
        assert p.actions + rest == rest && p.state.link == s.link;
      } else {
        RunOne(s.link, p.actions[0]);
        assert p.actions == [p.actions[0]];
        assert (p.actions + rest)[0] == p.actions[0] && (p.actions + rest)[1..] == rest;
      }
    }
  }

  lemma OutgoingCutsNothing(l: Link, out: seq<Action>, rest: seq<Action>)
    requires out in {[], [Start], [Finish]}
    ensures NothingCuts(l, out + rest) <==> NothingCuts(Run(l, out), rest)
  {
    hide Act;
    if out == [] {
      assert out + rest == rest;
    } else {
      RunOne(l, out[0]);
      assert out == [out[0]];
      assert (out + rest)[0] == out[0] && (out + rest)[1..] == rest;
    }
  }

  /** A poll in the middle of a frame goes on with that frame if and only if it receives neither a CONF RESP while the
      link is not active nor a SYNC while it is. */
  lemma PollCuts(s: State, input: seq<Slip.Reading>)
    requires ValidState(s)
    ensures var p, t := Poll(s, input), TransmitIfDue(s).state;
            p.state.tx == if NothingCuts(s.link, p.actions) then t.tx else Idle(t.tx)
    ensures var p, t := Poll(s, input), TransmitIfDue(s).state;
            t.tx.size != 0 ==> (p.state.tx == t.tx <==> NothingCuts(s.link, p.actions))
  {
    hide TransmitIfDue, Receive, ValidState, Run, NothingCuts;
    TransmitIsValid(s);
    TransmitIsRun(s);
    var t := TransmitIfDue(s);
    if t.early {
      OutgoingCutsNothing(s.link, t.actions, []);
      assert t.actions + [] == t.actions;
      NothingCutsNothing(t.state.link);
    } else {
      OutgoingCutsNothing(s.link, t.actions, Receive(t.state, input).actions);
      ReceiveCuts(t.state, input);
    }
  }

  lemma NothingCutsNothing(l: Link)
    ensures NothingCuts(l, [])
  {
  }

  /** In every one of these polls. */
  predicate NeverCut(l: Line, arrivals: seq<seq<Slip.Reading>>)
    requires ValidState(l.state)
    decreases arrivals
  {
    arrivals != [] ==>
      && NothingCuts(l.state.link, Poll(l.state, l.pending + arrivals[0]).actions)
      && (PollIsValid(l.state, l.pending + arrivals[0]); NeverCut(PollLine(l, arrivals[0]), arrivals[1..]))
  }

  /** So what FrameGoesOut and RoundTrip ask for can be read off the frames received. */
  lemma {:induction false} NeverCutIsUndisturbed(l: Line, arrivals: seq<seq<Slip.Reading>>)
    requires ValidState(l.state) && NeverCut(l, arrivals)
    ensures Undisturbed(l, arrivals)
    decreases arrivals
  {
    hide Poll, NothingCuts, TransmitIfDue;
    if arrivals != [] {
      PollIsValid(l.state, l.pending + arrivals[0]);
      PollCuts(l.state, l.pending + arrivals[0]);
      NeverCutIsUndisturbed(PollLine(l, arrivals[0]), arrivals[1..]);
    }
  }

  // ---------- a session that spoils a frame ----------

  function PollCalls(n: nat): (calls: seq<Call>)
    ensures |calls| == n && forall i :: 0 <= i < n ==> Proper(calls[i])
  {
    if n == 0 then [] else [Call.Polls([])] + PollCalls(n - 1)
  }

  lemma {:induction false} PlayPolls(l: Line, n: nat, p: Packet)
    requires ValidState(l.state)
    ensures var m := Transmission.Polls(l, Silence(n)).line;
            Play(l, PollCalls(n) + [Sends(p)]).line == m.(state := SendPacket(m.state, p))
    decreases n
  {
    hide Poll, PollLine, PollOutput, ValidState;
    var calls := PollCalls(n) + [Sends(p)];
    if n == 0 {
      assert calls == [Sends(p)] && calls[1..] == [];
      NoPoll(l);
      DoIsValid(l, Sends(p));
      assert Play(Do(l, Sends(p)), []).line == Do(l, Sends(p));
    } else {
      assert calls[0] == Call.Polls([]) && calls[1..] == PollCalls(n - 1) + [Sends(p)];
      assert Silence(n)[0] == [] && Silence(n)[1..] == Silence(n - 1);
      FirstPoll(l, Silence(n));
      PlayPolls(PollLine(l, []), n - 1, p);
    }
  }

  /** A host that submits a packet at the wrong moment gets it spoiled: for every frame that is due and has a FRAME or
      an ESCAPE octet in its body there is a session of polls and one submission after which the next frame is to be
      started with an escape code left over; and that frame is then not what goes out. */
  lemma SessionSpoils(l: Line, f: Frame, p: Packet) returns (calls: seq<Call>)
    requires Due(l.state, f) && l.pending == [] && p.payload != []
    requires Slip.FRAME in Body(f) || Slip.ESCAPE in Body(f)
    ensures forall i :: 0 <= i < |calls| ==> Proper(calls[i])
    ensures var s := Play(l, calls).line.state;
            && NextFrame(s.link).frame.Some? && Next(s, NextFrame(s.link).frame.value)
            && EscapeCode(s.tx.escape)
            && SpoiledWire(s.tx.escape, NextFrame(s.link).frame.value) != Wire(NextFrame(s.link).frame.value)
  {
    hide Body, Wire, SpoiledWire, Play, NextFrame, EscapeCode, ValidTx, ValidRx;
    var n := EscapeComesUp(l, f, p);
    PlayPolls(l, n, p);
    calls := PollCalls(n) + [Sends(p)];
    var s := Play(l, calls).line.state;
    SpoiledIsDifferent(s.tx.escape, NextFrame(s.link).frame.value);
  }

  // ---------- the receiver and the escape code over sessions ----------

  /** The octets recovered since the last FRAME, after a call: a new buffer and an initialization start a new frame, and
      both keep the escape flag. */
  function GatheredBy(l: Line, c: Call, d: Slip.Decoded): Slip.Decoded
    requires ValidState(l.state) && Proper(c)
  {
    match c
    case Polls(arrived) =>
      var input := l.pending + arrived;
      Slip.DecodeAll(d, FrameReception.Taken(input, PollLine(l, arrived).pending))
    case Sends(_) => d
    case Receives(_) => Slip.Decoded(d.escaped, [])
    case Initializes => Slip.Decoded(d.escaped, [])
  }

  function Gathered(l: Line, calls: seq<Call>, d: Slip.Decoded): Slip.Decoded
    requires ValidState(l.state) && forall i :: 0 <= i < |calls| ==> Proper(calls[i])
    decreases calls
  {
    if calls == [] then d
    else
      DoIsValid(l, calls[0]);
      Gathered(Do(l, calls[0]), calls[1..], GatheredBy(l, calls[0], d))
  }

  lemma CallCollects(l: Line, c: Call, d: Slip.Decoded)
    requires ValidState(l.state) && Proper(c) && FrameReception.Collects(l.state.rx, d)
    ensures FrameReception.Collects(Do(l, c).state.rx, GatheredBy(l, c, d))
  {
    hide Poll, PollLine, ValidTx, Slip.DecodeAll;
    if c.Polls? {
      FrameReception.PollCollects(l, c.arrived, d);
    }
  }

  /** The buffer invariant over every session, new buffers and initializations included: the receiver has stored the
      longest fitting prefix of the frame being read, and its index stays between -4 and the capacity. */
  lemma {:induction false} SessionCollects(l: Line, calls: seq<Call>, d: Slip.Decoded)
    requires ValidState(l.state) && forall i :: 0 <= i < |calls| ==> Proper(calls[i])
    requires FrameReception.Collects(l.state.rx, d)
    ensures var rx := Play(l, calls).line.state.rx;
            && FrameReception.Collects(rx, Gathered(l, calls, d))
            && -4 <= rx.index && (rx.buffer.Some? && rx.index >= 0 ==> rx.index <= rx.buffer.value.capacity)
    decreases calls
  {
    hide Do, ActionsOf, ValidState, GatheredBy, FrameReception.Collects;
    if calls == [] {
      FrameReception.CollectsIsValid(l.state.rx, d);
    } else {
      DoIsValid(l, calls[0]);
      CallCollects(l, calls[0], d);
      SessionCollects(Do(l, calls[0]), calls[1..], GatheredBy(l, calls[0], d));
    }
  }

  lemma CallKeepsCode(l: Line, c: Call)
    requires ValidState(l.state) && Proper(c) && NoneOrCode(l.state.tx.escape)
    ensures NoneOrCode(Do(l, c).state.tx.escape)
  {
    hide TransmitIfDue, Receive, ValidState, NothingCuts, NoneOrCode;
    if c.Polls? {
      PollCuts(l.state, l.pending + c.arrived);
      TransmitKeepsCode(l.state);
    }
  }

  /** Over every session, what can be left over from an abandoned frame is nothing or one of the two escape codes. */
  lemma {:induction false} SessionKeepsCode(l: Line, calls: seq<Call>)
    requires ValidState(l.state) && forall i :: 0 <= i < |calls| ==> Proper(calls[i])
    requires NoneOrCode(l.state.tx.escape)
    ensures NoneOrCode(Play(l, calls).line.state.tx.escape)
    decreases calls
  {
    hide Do, ActionsOf, ValidState, NoneOrCode;
    if calls != [] {
      DoIsValid(l, calls[0]);
      CallKeepsCode(l, calls[0]);
      SessionKeepsCode(Do(l, calls[0]), calls[1..]);
    }
  }

  // ---------- the delay ----------

  /** The frame cancels a running delay: link establishment, or it retires the pending packet, or it is a reliable one
      in sequence, which is to be acknowledged. */
  predicate Prompts(l: Link, a: Action) {
    a.Accepted? && (a.seen.channel == LE_CHANNEL || Retires(l, a) || DeliversInSequence(l, a))
  }

  predicate SomePrompts(l: Link, actions: seq<Action>)
    decreases actions
  {
    actions != [] && (Prompts(l, actions[0]) || SomePrompts(Act(l, actions[0]), actions[1..]))
  }

  lemma ReceiveOctetDelay(s: State, r: Slip.Reading)
    requires ValidState(s) && s.rx.buffer.Some?
    ensures var p := ReceiveOctet(s, r);
            p.state.delay == if p.actions != [] && Prompts(s.link, p.actions[0]) then 0 else s.delay
  {
    hide Intact, WhichLe, DecodeHeader, Store, Slip.Decode, PayloadOf, Increment, Accept;
    var p := ReceiveOctet(s, r);
    if p.actions != [] && p.actions[0].Accepted? {
      AcceptPrompts(s.link, p.actions[0].seen);
      AcceptDelivers(s.link, p.actions[0].seen);
    }
  }

  lemma {:induction false} ReceiveDelay(s: State, input: seq<Slip.Reading>)
    requires ValidState(s)
    ensures var r := Receive(s, input);
            r.state.delay == if SomePrompts(s.link, r.actions) then 0 else s.delay
    decreases input
  {
    hide Receive, ReceiveOctet, ValidState, Act, Prompts;
    if s.rx.buffer.Some? && input != [] {
      var p := ReceiveOctet(s, input[0]);
      ReceiveFirst(s, input);
      ReceiveOctetIsRun(s, input[0]);
      ReceiveOctetDelay(s, input[0]);
      ReceiveDelay(p.state, input[1..]);
      var rest := Receive(p.state, input[1..]).actions;
      if p.actions == [] {
        assert p.actions + rest == rest && p.state.link == s.link;
      } else {
        RunOne(s.link, p.actions[0]);
        assert p.actions == [p.actions[0]];
        assert (p.actions + rest)[0] == p.actions[0] && (p.actions + rest)[1..] == rest;
      }
    } else {
      ReadNothing(s, input);
    }
  }

  /** The delay that a poll returns, for every state and every input. While a delay is running it counts down by one,
      and a frame that cancels it makes it 0; otherwise it is 25 after a frame has been finished or if there was none
      to start, and 0 in the middle of one. */
  lemma PollDelay(s: State, input: seq<Slip.Reading>)
    requires ValidState(s)
    ensures var p := Poll(s, input);
            && p.value == p.state.delay
            && p.value == if s.delay > 0 then (if SomePrompts(s.link, p.actions) then 0 else s.delay - 1)
                          else if p.actions != [] && p.actions[0].Finish? then 25
                          else if s.tx.size == 0 && NextFrame(s.link).frame.None? then 25
                          else 0
  {
    hide Receive, Advance, Setup, EncodeHeader, HeaderOf, NextFrame, FinishFrame, SomePrompts, ValidTx, ValidRx;
    TransmitIsValid(s);
    var t := TransmitIfDue(s);
    if !t.early {
      ReceiveIsRun(t.state, input);
      ReceiveDelay(t.state, input);
      if s.delay > 0 {
        assert t.actions + Receive(t.state, input).actions == Receive(t.state, input).actions;
      }
    }
  }

  lemma ReceiveOctetAck(s: State, r: Slip.Reading)
    requires ValidState(s) && s.rx.buffer.Some?
    ensures var p := ReceiveOctet(s, r);
            && (p.activity.ack <==> p.delivered.Some? && p.delivered.value.reliable)
            && (p.activity.ack ==> p.state.link.sendAck && Prompts(s.link, p.actions[0]) && p.state.rx.buffer.None?)
            && (p.activity.reset <==> p.actions != [] && Resets(s.link, p.actions[0]))
  {
    hide Intact, WhichLe, DecodeHeader, Store, Slip.Decode, PayloadOf, Increment, Accept;
    ReceiveOctetIsValid(s, r);
    var p := ReceiveOctet(s, r);
    if p.actions != [] && p.actions[0].Accepted? {
      AcceptDelivers(s.link, p.actions[0].seen);
      AcceptNumbers(s.link, p.actions[0].seen);
    }
  }

  predicate SomeResets(l: Link, actions: seq<Action>)
    decreases actions
  {
    actions != [] && (Resets(l, actions[0]) || SomeResets(Act(l, actions[0]), actions[1..]))
  }

  lemma {:induction false} ReceiveAck(s: State, input: seq<Slip.Reading>)
    requires ValidState(s)
    ensures var r := Receive(s, input);
            && (r.activity.ack <==> r.delivered.Some? && r.delivered.value.reliable)
            && (r.activity.ack ==> r.state.link.sendAck && SomePrompts(s.link, r.actions))
            && (r.activity.reset <==> SomeResets(s.link, r.actions))
    decreases input
  {
    hide Receive, ReceiveOctet, ValidState, Act, Prompts, Resets;
    if s.rx.buffer.Some? && input != [] {
      var p := ReceiveOctet(s, input[0]);
      ReceiveFirst(s, input);
      ReceiveOctetIsValid(s, input[0]);
      ReceiveOctetIsRun(s, input[0]);
      ReceiveOctetAck(s, input[0]);
      ReceiveAck(p.state, input[1..]);
      var rest := Receive(p.state, input[1..]).actions;
      if p.state.rx.buffer.None? {
        ReadNothing(p.state, input[1..]);
      }
      if p.actions == [] {
        assert p.actions + rest == rest && p.state.link == s.link;
      } else {
        RunOne(s.link, p.actions[0]);
        assert p.actions == [p.actions[0]];
        assert (p.actions + rest)[0] == p.actions[0] && (p.actions + rest)[1..] == rest;
      }
    } else {
      ReadNothing(s, input);
    }
  }

  lemma OutgoingPromptsNothing(l: Link, out: seq<Action>, rest: seq<Action>)
    requires out in {[], [Start], [Finish]}
    ensures SomePrompts(l, out + rest) <==> SomePrompts(Run(l, out), rest)
    ensures SomeResets(l, out + rest) <==> SomeResets(Run(l, out), rest)
  {
    hide Act;
    if out == [] {
      assert out + rest == rest;
    } else {
      RunOne(l, out[0]);
      assert out == [out[0]];
      assert (out + rest)[0] == out[0] && (out + rest)[1..] == rest;
    }
  }

  /** A poll reports ACK if and only if the packet that it hands over is reliable, and then an acknowledgement is owed;
      and it reports that the peer has restarted if and only if a frame reset the link. */
  lemma AckAndResetMean(s: State, input: seq<Slip.Reading>)
    requires ValidState(s)
    ensures var p := Poll(s, input);
            && (p.activity.ack <==> p.delivered.Some? && p.delivered.value.reliable)
            && (p.activity.ack ==> p.state.link.sendAck && SomePrompts(s.link, p.actions))
            && (p.activity.reset <==> SomeResets(s.link, p.actions))
  {
    hide TransmitIfDue, Receive, ValidState, Run, SomePrompts, SomeResets;
    TransmitIsValid(s);
    TransmitIsRun(s);
    var t := TransmitIfDue(s);
    if t.early {
      OutgoingPromptsNothing(s.link, t.actions, []);
      assert t.actions + [] == t.actions;
      NothingResets(t.state.link);
    } else {
      OutgoingPromptsNothing(s.link, t.actions, Receive(t.state, input).actions);
      ReceiveAck(t.state, input);
    }
  }

  lemma NothingResets(l: Link)
    ensures !SomeResets(l, [])
  {
  }

  lemma TransmitStarts(s: State, input: seq<Slip.Reading>)
    requires ValidState(s) && s.delay == 0 && s.tx.size == 0 && NextFrame(s.link).frame.Some?
    ensures var p := Poll(s, input);
            p.output == [Slip.FRAME] && p.actions != [] && p.actions[0] == Start
  {
    hide Receive, Setup, EncodeHeader, HeaderOf, NextFrame;
    TransmitIsValid(s);
  }

  lemma IdleStaysIdle(s: State, input: seq<Slip.Reading>)
    requires ValidState(s) && s.delay > 0 && s.tx.size == 0
    ensures Poll(s, input).state.tx.size == 0
  {
    hide TransmitIfDue, Receive, ValidTx, ValidRx, NothingCuts;
    PollCuts(s, input);
    WaitsForDelay(s);
  }

  lemma WaitsForDelay(s: State)
    requires ValidState(s) && s.delay > 0
    ensures TransmitIfDue(s).state == s && TransmitIfDue(s).output == []
  {
  }

  /** A delay does not hold up an acknowledgement. Between frames, whatever delay is running: the poll that receives a
      packet to be acknowledged, or any other frame that cancels the delay, returns 0; and the next poll starts a frame,
      if there is one to start, as there is when an acknowledgement is owed. */
  lemma DelayIsCancelled(s: State, input: seq<Slip.Reading>, more: seq<Slip.Reading>)
    requires ValidState(s) && s.delay > 0 && s.tx.size == 0
    requires Poll(s, input).activity.ack || SomePrompts(s.link, Poll(s, input).actions)
    ensures var p := Poll(s, input);
            && p.value == 0 && ValidState(p.state) && p.state.delay == 0
            && (p.activity.ack ==> NextFrame(p.state.link).frame.Some?)
            && (NextFrame(p.state.link).frame.Some? ==>
                  var q := Poll(p.state, more);
                  q.output == [Slip.FRAME] && q.actions != [] && q.actions[0] == Start)
  {
    hide Poll, ValidState, SomePrompts, NextFrame;
    var p := Poll(s, input);
    PollIsValid(s, input);
    PollDelay(s, input);
    AckAndResetMean(s, input);
    IdleStaysIdle(s, input);
    OwedIsStarted(p.state.link);
    if NextFrame(p.state.link).frame.Some? {
      TransmitStarts(p.state, more);
    }
  }

  lemma OwedIsStarted(l: Link)
    ensures l.sendAck ==> NextFrame(l).frame.Some?
  {
  }

  // ---------- what a poll reads ----------

  /** A poll reads everything there is as long as there is a packet to receive into, except that one which starts a
      frame the link still had to send to establish itself reads nothing at all, reports nothing and asks to be called
      at once. */
  lemma PollReads(s: State, input: seq<Slip.Reading>)
    requires ValidState(s)
    ensures var p := Poll(s, input);
            if s.delay == 0 && s.tx.size == 0 && s.link.pkt != NONE then
              p.rest == input && p.activity == QUIET && p.delivered.None? && p.value == 0 && p.actions == [Start]
            else
              p.state.rx.buffer.Some? ==> p.rest == []
  {
    hide Receive, Advance, Setup, EncodeHeader, HeaderOf, NextLePacket, LeFrame, FinishFrame, ValidTx, ValidRx;
    TransmitIsValid(s);
    var t := TransmitIfDue(s);
    if !t.early {
      FrameReception.ArmedReadsAll(t.state, input);
    }
  }

  // ---------- what the host's calls leave alone ----------

  /** An initialized engine starts at once with a SYNC. */
  lemma InitializedStartsSync(s: State, input: seq<Slip.Reading>)
    requires ValidState(s)
    ensures var s' := InitializeEngine(s);
            && Next(s', LeFrame(SYNC)) && s'.tx.escape == s.tx.escape
            && Poll(s', input).output == [Slip.FRAME] && Poll(s', input).actions == [Start]
  {
    hide LeFrame, Setup, EncodeHeader, HeaderOf, Receive;
    var s' := InitializeEngine(s);
    assert NextFrame(s'.link).frame == Some(LeFrame(SYNC));
    TransmitIsValid(s');
  }

  /** A packet submitted while a delay is running waits for its end, and is then the next to go out, if nothing of link
      establishment is. */
  lemma SubmissionWaits(l: Line, p: Packet)
    requires ValidState(l.state) && l.pending == [] && DataOrAckNext(l.state.link) && p.payload != []
    ensures var m := l.(state := SendPacket(l.state, p));
            ValidState(m.state) &&
            var o := Transmission.Polls(m, Silence(l.state.delay));
            o.output == [] && Next(o.line.state, DataFrame(l.state.link, p))
  {
    hide ValidRx, Poll, Transmission.Polls;
    var m := l.(state := SendPacket(l.state, p));
    SilentCountdown(m);
  }

  /** The receivers are different, and nothing else. */
  predicate SameButReceiver(a: State, b: State) {
    b == a.(rx := b.rx)
  }

  lemma SilentPollSame(a: State, b: State)
    requires ValidState(a) && ValidState(b) && SameButReceiver(a, b)
    ensures SameButReceiver(PollLine(Line(a, []), []).state, PollLine(Line(b, []), []).state)
    ensures PollLine(Line(a, []), []).pending == [] && PollLine(Line(b, []), []).pending == []
    ensures PollOutput(Line(a, []), []) == PollOutput(Line(b, []), [])
  {
    hide Advance, Setup, EncodeHeader, HeaderOf, NextFrame, FinishFrame, ValidTx, ValidRx;
    TransmitIsValid(a);
    TransmitIsValid(b);
    var nothing: seq<Slip.Reading> := [];
    assert nothing + nothing == nothing;
    ReadNothing(TransmitIfDue(a).state, []);
    ReadNothing(TransmitIfDue(b).state, []);
  }

  /** What goes out does not depend on the receiver: a host may arm it at any time without disturbing a frame that is
      being sent or a delay. */
  lemma {:induction false} ArmingDoesNotDisturb(a: State, b: State, n: nat)
    requires ValidState(a) && ValidState(b) && SameButReceiver(a, b)
    ensures var o, q := Transmission.Polls(Line(a, []), Silence(n)), Transmission.Polls(Line(b, []), Silence(n));
            o.output == q.output && SameButReceiver(o.line.state, q.line.state)
    decreases n
  {
    hide Poll, PollLine, PollOutput, ValidState, Transmission.Polls;
    if n == 0 {
      NoPoll(Line(a, []));
      NoPoll(Line(b, []));
    } else {
      SilentPollSame(a, b);
      FirstPoll(Line(a, []), Silence(n));
      FirstPoll(Line(b, []), Silence(n));
      assert Silence(n)[0] == [] && Silence(n)[1..] == Silence(n - 1);
      var a1, b1 := PollLine(Line(a, []), []), PollLine(Line(b, []), []);
      ArmingDoesNotDisturb(a1.state, b1.state, n - 1);
      assert a1 == Line(a1.state, []) && b1 == Line(b1.state, []);
    }
  }

  lemma ArmedIsSame(s: State, buffer: Buffer)
    requires ValidState(s) && ValidBuffer(buffer)
    ensures ValidState(ReceivePacket(s, buffer)) && SameButReceiver(s, ReceivePacket(s, buffer))
  {
  }
}
