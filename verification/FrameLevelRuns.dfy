/** What one engine keeps over every run: the sequence numbers, the promise of an acknowledgement, and link
    establishment. */
module FrameLevelRuns {
  import opened Framing
  import opened FrameLevel

  // ---------- what a frame does ----------

  /** The frame carries a payload that counts: not one of link establishment, and in the active state. */
  predicate CarriesPayload(l: Link, s: Seen) {
    l.le == ACTIVE && s.channel != LE_CHANNEL && s.hasPayload
  }

  predicate IsKind(s: Seen, k: LePacket) {
    s.channel == LE_CHANNEL && s.le == k
  }

  /** For every link and every frame: when a packet is retired, when a payload goes to the host, and what of it is
      reported. An unreliable payload is delivered whatever its number, and a reliable one in sequence only. */
  lemma AcceptDelivers(l: Link, s: Seen)
    ensures var e := Accept(l, s);
            && (e.retired <==> l.out.Some? && l.out.value.reliable && s.ackNo != l.seqNo)
            && (e.delivered <==> CarriesPayload(l, s) && (s.reliable ==> s.seqNo == l.ackNo))
            && (e.activity.received <==> e.delivered) && (e.activity.ack <==> e.delivered && s.reliable)
            && (e.reset <==> IsKind(s, SYNC) && l.le == ACTIVE) && (e.activity.reset <==> e.reset)
            && (e.activity.sent <==> !e.reset && (e.retired || (IsKind(s, CONF_RESP) && l.le != ACTIVE)))
  {
    hide Increment;
  }

  /** And when a running delay and the frame being sent are abandoned. */
  lemma AcceptPrompts(l: Link, s: Seen)
    ensures var e := Accept(l, s);
            && (e.prompt <==> s.channel == LE_CHANNEL || (l.out.Some? && l.out.value.reliable && s.ackNo != l.seqNo))
            && (e.cut <==> (IsKind(s, SYNC) && l.le == ACTIVE) || (IsKind(s, CONF_RESP) && l.le != ACTIVE))
  {
    hide Increment;
  }

  /** And what becomes of the numbers, the ack request and the pending packet. */
  lemma AcceptNumbers(l: Link, s: Seen)
    ensures var e := Accept(l, s);
            if e.reset then e.link.seqNo == 0 && e.link.ackNo == 0 && e.link.sendAck == l.sendAck
            else
              && e.link.seqNo == (if e.retired then Increment(l.seqNo) else l.seqNo)
              && e.link.ackNo == (if e.delivered && s.reliable then Increment(l.ackNo) else l.ackNo)
              && e.link.sendAck == (l.sendAck || (CarriesPayload(l, s) && s.reliable))
    ensures Accept(l, s).link.out == (if Accept(l, s).retired then None else l.out)
  {
    hide Increment;
  }

  // ---------- answers ----------

  /** The table as a rule: a pending SYNC RESP is sent by a link that is not active and a pending CONF RESP by one that
      is initialized; with nothing pending, SYNC or CONF; and otherwise nothing is left. */
  lemma TableIsRule(le: LeState, resp: LeResponse)
    ensures NextLePacket(le, resp) == SYNC_RESP <==> resp == RESPOND_SYNC && le != ACTIVE
    ensures NextLePacket(le, resp) == CONF_RESP <==> resp == RESPOND_CONF && le != UNINITIALIZED
    ensures NextLePacket(le, resp) == SYNC <==> resp == 0 && le == UNINITIALIZED
    ensures NextLePacket(le, resp) == CONF <==> resp == 0 && le == INITIALIZED
  {
  }

  /** A SYNC is answered: the second frame started after it is a SYNC RESP, unless the link becomes active. */
  lemma SyncIsAnswered(l: Link, s: Seen)
    requires IsKind(s, SYNC) && l.le != ACTIVE && l.pkt != NONE
    ensures var m := Accept(l, s).link;
            && NextFrame(m).frame == Some(LeFrame(l.pkt))
            && NextFrame(NextFrame(m).link).frame == Some(LeFrame(SYNC_RESP))
  {
    hide Increment, LeFrame;
  }

  /** A CONF is answered: of the next two frames started one is a CONF RESP. */
  lemma ConfIsAnswered(l: Link, s: Seen)
    requires IsKind(s, CONF) && l.le != UNINITIALIZED
    ensures var m := Accept(l, s).link;
            if l.pkt == NONE then NextFrame(m).frame == Some(LeFrame(CONF_RESP))
            else NextFrame(m).frame == Some(LeFrame(l.pkt)) &&
                 NextFrame(NextFrame(m).link).frame == Some(LeFrame(CONF_RESP))
  {
    hide Increment, LeFrame;
  }

  /** And once only: a CONF RESP is not repeated, and an acknowledgement asked for goes out with one frame. After that
      there is nothing to send, or the same data frame again, until something else asks. */
  lemma AnsweredOnce(l: Link)
    requires l.pkt == NONE
    ensures var n := NextFrame(l);
            if l.resp == RESPOND_CONF then
              n.frame == Some(LeFrame(CONF_RESP)) && NextFrame(n.link) == NextFrame(l.(resp := 0))
            else if l.out.Some? then
              n.frame.Some? && !n.link.sendAck && NextFrame(n.link) == n
            else
              n.frame.Some? == l.sendAck && NextFrame(n.link).frame.None?
  {
    hide LeFrame;
  }

  // ---------- counting ----------

  /** n counted in a three-bit field. */
  function Wrap(n: nat): Count {
    if n == 0 then 0 else Increment(Wrap(n - 1))
  }

  lemma IncrementIsModulo(c: Count)
    ensures Increment(c) as nat == (c as nat + 1) % 8
    ensures Increment(c) != c
  {
  }

  lemma {:induction false} WrapIsModulo(n: nat)
    ensures Wrap(n) as nat == n % 8
  {
    hide Increment;
    if n != 0 {
      WrapIsModulo(n - 1);
      IncrementIsModulo(Wrap(n - 1));
    }
  }

  /** A link with the number of reliable packets retired and delivered in sequence since it was initialized. */
  datatype Tally = Tally(link: Link, retired: nat, delivered: nat)

  predicate Retires(l: Link, a: Action) {
    a.Accepted? && Accept(l, a.seen).retired
  }

  predicate DeliversInSequence(l: Link, a: Action) {
    a.Accepted? && Accept(l, a.seen).delivered && a.seen.reliable
  }

  function Tick(t: Tally, a: Action): Tally {
    var l := Act(t.link, a);
    if Resets(t.link, a) then Tally(l, 0, 0)
    else Tally(l, if Retires(t.link, a) then t.retired + 1 else t.retired,
                  if DeliversInSequence(t.link, a) then t.delivered + 1 else t.delivered)
  }

  function TallyRun(t: Tally, actions: seq<Action>): Tally
    decreases actions
  {
    if actions == [] then t else TallyRun(Tick(t, actions[0]), actions[1..])
  }

  predicate InStep(t: Tally) {
    t.link.seqNo == Wrap(t.retired) && t.link.ackNo == Wrap(t.delivered)
  }

  lemma AcceptCounts(l: Link, s: Seen)
    ensures var e := Accept(l, s);
            if e.reset then e.link.seqNo == 0 && e.link.ackNo == 0
            else
              && e.link.seqNo == (if e.retired then Increment(l.seqNo) else l.seqNo)
              && e.link.ackNo == (if e.delivered && s.reliable then Increment(l.ackNo) else l.ackNo)
  {
    hide Increment;
  }

  lemma OtherActionsKeepCounts(l: Link, a: Action)
    requires !a.Accepted? && !a.Restarted?
    ensures Act(l, a).seqNo == l.seqNo && Act(l, a).ackNo == l.ackNo
  {
    hide NextLePacket, Increment;
  }

  lemma InStepTick(t: Tally, a: Action)
    requires InStep(t)
    ensures InStep(Tick(t, a))
  {
    hide Increment, Accept, NextFrame, FinishFrame;
    if a.Accepted? {
      AcceptCounts(t.link, a.seen);
    } else if !a.Restarted? {
      OtherActionsKeepCounts(t.link, a);
    }
  }

  /** Over every run, whatever is received: the sequence number counts the reliable packets retired, and the
      acknowledgement number the reliable packets delivered in sequence, both modulo 8 and both since the
      last (re)initialization. */
  lemma {:induction false} CountersCount(t: Tally, actions: seq<Action>)
    requires InStep(t)
    ensures var u := TallyRun(t, actions);
            && u.link == Run(t.link, actions)
            && u.link.seqNo as nat == u.retired % 8
            && u.link.ackNo as nat == u.delivered % 8
    decreases actions
  {
    hide Act, Increment, Resets, Retires, DeliversInSequence;
    if actions == [] {
      WrapIsModulo(t.retired);
      WrapIsModulo(t.delivered);
    } else {
      InStepTick(t, actions[0]);
      CountersCount(Tick(t, actions[0]), actions[1..]);
    }
  }

  // ---------- acknowledgements are not forgotten ----------

  /** The next frame is one that carries the acknowledgement number. */
  predicate SendsAck(l: Link) {
    && l.pkt == NONE && l.resp != RESPOND_CONF
    && NextFrame(l).frame.Some?
    && NextFrame(l).frame.value.ackNo == l.ackNo
  }

  lemma AckStep(l: Link, a: Action)
    requires l.sendAck
    ensures Act(l, a).sendAck || (a.Start? && SendsAck(l))
  {
    hide Increment, NextLePacket;
  }

  /** Once an acknowledgement is owed, it stays owed until a data or ack frame with the acknowledgement
      number of that moment is started. */
  lemma {:induction false} AckStaysOwed(l: Link, actions: seq<Action>)
    requires l.sendAck
    ensures || Run(l, actions).sendAck
            || exists i :: 0 <= i < |actions| && actions[i].Start? && SendsAck(Run(l, actions[..i]))
    decreases actions
  {
    hide Act, SendsAck;
    if actions != [] {
      var l1 := Act(l, actions[0]);
      AckStep(l, actions[0]);
      if l1.sendAck {
        AckStaysOwed(l1, actions[1..]);
        if !Run(l, actions).sendAck {
          var j :| 0 <= j < |actions[1..]| && actions[1..][j].Start? && SendsAck(Run(l1, actions[1..][..j]));
          assert actions[..j + 1][1..] == actions[1..][..j] && actions[..j + 1][0] == actions[0];
          assert Run(l, actions[..j + 1]) == Run(l1, actions[1..][..j]);
        }
      } else {
        assert actions[..0] == [];
        assert Run(l, actions[..0]) == l;
      }
    }
  }

  /** A reliable frame with payload that passes the checks in the active state, in sequence or not, makes the
      engine owe an acknowledgement; so does every frame that fails the checks. */
  lemma ReliablePayloadOwesAck(l: Link, s: Seen)
    requires l.le == ACTIVE && s.channel != LE_CHANNEL && s.reliable && s.hasPayload
    ensures Act(l, Accepted(s)).sendAck && Act(l, Rejected).sendAck
    ensures Accept(l, s).delivered <==> s.seqNo == l.ackNo
  {
  }

  // ---------- an acknowledgement that is cut short ----------

  /** The next frame is not one of link establishment. */
  predicate DataOrAckNext(l: Link) {
    l.pkt == NONE && l.resp != RESPOND_CONF
  }

  /** What can happen before the next data or ack frame is started: no reset, no new packet. */
  predicate Interim(l: Link, actions: seq<Action>)
    decreases actions
  {
    actions != [] ==>
      && !Resets(l, actions[0]) && !actions[0].Submitted? && !(actions[0].Start? && DataOrAckNext(l))
      && Interim(Act(l, actions[0]), actions[1..])
  }

  /** The pending packet is retired, or dropped because it is unreliable and a frame has been finished. */
  predicate Removes(l: Link, a: Action) {
    Retires(l, a) || (a.Finish? && l.out.Some? && !l.out.value.reliable)
  }

  /** Something is received that asks for an acknowledgement. */
  predicate Requests(l: Link, a: Action) {
    || a.Rejected?
    || (a.Accepted? && l.le == ACTIVE && a.seen.channel != LE_CHANNEL && a.seen.reliable && a.seen.hasPayload)
  }

  predicate SomeRemoves(l: Link, actions: seq<Action>)
    decreases actions
  {
    actions != [] && (Removes(l, actions[0]) || SomeRemoves(Act(l, actions[0]), actions[1..]))
  }

  predicate SomeRequests(l: Link, actions: seq<Action>)
    decreases actions
  {
    actions != [] && (Requests(l, actions[0]) || SomeRequests(Act(l, actions[0]), actions[1..]))
  }

  lemma AcceptedRequest(l: Link, s: Seen)
    requires !Accept(l, s).reset
    ensures Act(l, Accepted(s)).out == (if Accept(l, s).retired then None else l.out)
    ensures Act(l, Accepted(s)).sendAck == (l.sendAck || Requests(l, Accepted(s)))
  {
    hide Increment;
  }

  lemma InterimStep(l: Link, a: Action)
    requires !Resets(l, a) && !a.Submitted? && !(a.Start? && DataOrAckNext(l))
    ensures Act(l, a).out == (if Removes(l, a) then None else l.out)
    ensures Act(l, a).sendAck == (l.sendAck || Requests(l, a))
  {
    hide Accept, NextLePacket, LeFrame;
    if a.Accepted? {
      AcceptedRequest(l, a.seen);
    }
  }

  lemma {:induction false} InterimRun(l: Link, actions: seq<Action>)
    requires Interim(l, actions)
    ensures Run(l, actions).out == (if SomeRemoves(l, actions) then None else l.out)
    ensures Run(l, actions).sendAck == (l.sendAck || SomeRequests(l, actions))
    decreases actions
  {
    hide Act, Resets, Removes, Requests;
    if actions != [] {
      InterimStep(l, actions[0]);
      InterimRun(Act(l, actions[0]), actions[1..]);
    }
  }

  lemma StartedAckIsDue(l: Link)
    requires SendsAck(l)
    ensures !Act(l, Start).sendAck
  {
  }

  lemma DataOrAck(l: Link)
    requires DataOrAckNext(l)
    ensures NextFrame(l).frame == if l.out.Some? then Some(DataFrame(l, l.out.value))
                                  else if l.sendAck then Some(AckFrame(l)) else None
    ensures NextFrame(l).frame.Some? ==> NextFrame(l).frame.value.ackNo == l.ackNo
  {
  }

  /** A frame with the acknowledgement number is started, and cut short by a packet the host submits, after whatever
      has been received meanwhile. Then, whatever happens until a data or ack frame is next, that frame is the new
      packet with the acknowledgement number of that moment, unless the packet has been retired or dropped; and then
      the acknowledgement is sent if and only if something received since has asked for one again. */
  lemma CutAckIsSentAgain(l: Link, before: seq<Action>, p: Packet, after: seq<Action>)
    requires SendsAck(l) && Interim(Act(l, Start), before)
    requires var cut := Submit(Run(Act(l, Start), before), p);
             Interim(cut, after) && DataOrAckNext(Run(cut, after))
    ensures var cut := Submit(Run(Act(l, Start), before), p);
            var m := Run(cut, after);
            if !SomeRemoves(cut, after) then
              NextFrame(m).frame == Some(DataFrame(m, p)) && NextFrame(m).frame.value.ackNo == m.ackNo
            else if SomeRequests(Act(l, Start), before) || SomeRequests(cut, after) then
              NextFrame(m).frame == Some(AckFrame(m)) && NextFrame(m).frame.value.ackNo == m.ackNo
            else
              NextFrame(m).frame == None
  {
    hide Act, Interim, SomeRemoves, SomeRequests, NextFrame, DataFrame, AckFrame;
    StartedAckIsDue(l);
    InterimRun(Act(l, Start), before);
    var cut := Submit(Run(Act(l, Start), before), p);
    InterimRun(cut, after);
    DataOrAck(Run(cut, after));
  }

  /** That the acknowledgement is forgotten does happen: a data frame that carries it is cut short by a new packet, and
      the peer's acknowledgement of the old one retires the new one. */
  lemma CutAckIsForgotten(l: Link, p: Packet, s: Seen)
    requires SendsAck(l) && l.out.Some? && l.out.value.reliable && p.reliable
    requires s.ackNo != l.seqNo && s.channel != LE_CHANNEL && !s.hasPayload
    ensures var m := Act(Act(Act(l, Start), Submitted(p)), Accepted(s));
            NextFrame(m).frame == None && m.ackNo == l.ackNo
  {
    hide Increment;
  }

  // ---------- link establishment over runs ----------

  /** No restart and no peer reset of this run happens while a CONF RESP is pending. */
  predicate NoResetWhileConfirming(l: Link, actions: seq<Action>)
    decreases actions
  {
    actions != [] ==>
      && !(l.resp == RESPOND_CONF && Resets(l, actions[0]))
      && NoResetWhileConfirming(Act(l, actions[0]), actions[1..])
  }

  /** Then the table never goes wrong: only an active link has nothing left to establish, so data and
      acknowledgements are started in the active state only. */
  lemma {:induction false} RunIsConsistent(l: Link, actions: seq<Action>)
    requires LeConsistent(l) && NoResetWhileConfirming(l, actions)
    ensures var m := Run(l, actions);
            && LeConsistent(m)
            && (NextFrame(m).frame.Some? && m.le != ACTIVE ==>
                  exists k: LePacket :: k < NONE && NextFrame(m).frame.value == LeFrame(k))
    decreases actions
  {
    hide Act, Resets, LeFrame;
    if actions == [] {
      if l.pkt != NONE {
        assert NextFrame(l).frame.value == LeFrame(l.pkt);
      }
    } else {
      LeConsistentStep(l, actions[0]);
      RunIsConsistent(Act(l, actions[0]), actions[1..]);
    }
  }
}
