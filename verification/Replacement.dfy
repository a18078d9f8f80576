/** What it costs to submit a packet before the previous one has been reported sent, as the host loop does. */
module Replacement {
  import opened Framing
  import opened FrameLevel
  import opened FrameLevelRuns
  import opened TwoEngines
  import opened Progress

  /** The peer has accepted the pending packet, but its acknowledgement has not arrived. */
  predicate AcceptedByPeer(x: Side, y: Side) {
    |y.delivered| == x.retired + 1
  }

  /** The packet that is pending then goes out under a number that the peer has already seen, and is refused as a
      duplicate whatever it is. */
  lemma GoesOutAsDuplicate(s: System, moves: seq<Move>, isA: bool)
    requires Fresh(s.a) && Fresh(s.b) && Valid(moves, s)
    requires var t := Final(moves, s); AcceptedByPeer(Me(t, isA), Peer(t, isA))
    ensures var x, y := Me(Final(moves, s), isA), Peer(Final(moves, s), isA);
            && x.link.out.Some? && |x.submitted| == x.retired + 1
            && var f := DataFrame(x.link, x.link.out.value);
               f.seqNo == Wrap(x.retired) && !Accept(y.link, See(f)).delivered
  {
    hide DataInFlight, AcksInFlight, Established, Increment, ChannelField, Final, Valid;
    ReachableBoth(s, moves, isA);
    var x, y := Me(Final(moves, s), isA), Peer(Final(moves, s), isA);
    SeeFields(DataFrame(x.link, x.link.out.value));
    IncrementDiffers(Wrap(x.retired));
  }

  // ---------- what has been delivered stays ----------

  lemma MoveOnlyAdds(x: Side, y: Side, e: Event)
    requires Enabled(x, y, e)
    ensures var (x', y') := Moved(x, y, e);
            x.delivered <= x'.delivered && y'.delivered == y.delivered
  {
    hide NextFrame, Accept, See;
  }

  lemma {:induction false} DeliveredGrows(s: System, moves: seq<Move>, isA: bool)
    requires Valid(moves, s)
    ensures Me(s, isA).delivered <= Me(Final(moves, s), isA).delivered
    decreases moves
  {
    hide Moved, Enabled;
    if moves != [] {
      if moves[0].byA {
        MoveOnlyAdds(s.a, s.b, moves[0].event);
      } else {
        MoveOnlyAdds(s.b, s.a, moves[0].event);
      }
      DeliveredGrows(TwoEngines.Step(s, moves[0]), moves[1..], isA);
    }
  }

  // ---------- what has been replaced too late is lost ----------

  /** The host of this side does not hand q over in these moves. */
  predicate HandsOver(m: Move, isA: bool, q: Packet) {
    m.byA == isA && m.event.Submits? && OnLine(m.event.p) == OnLine(q)
  }

  /** The first n numbers are delivered, and q was not among them, nor handed over under a later number. */
  predicate Missed(x: Side, y: Side, n: nat, q: Packet) {
    && n <= |y.delivered| && n <= |x.submitted| && q !in y.delivered[..n]
    && forall k :: n <= k < |x.submitted| ==> q !in x.submitted[k]
  }

  lemma MissedStep(s: System, m: Move, isA: bool, n: nat, q: Packet)
    requires Possible(s, m) && !HandsOver(m, isA, q) && Missed(Me(s, isA), Peer(s, isA), n, OnLine(q))
    ensures var t := TwoEngines.Step(s, m); Missed(Me(t, isA), Peer(t, isA), n, OnLine(q))
  {
    hide NextFrame, Accept, See, OnLine;
  }

  lemma {:induction false} MissedStays(s: System, moves: seq<Move>, isA: bool, n: nat, q: Packet)
    requires Valid(moves, s) && Missed(Me(s, isA), Peer(s, isA), n, OnLine(q))
    requires forall i :: 0 <= i < |moves| ==> !HandsOver(moves[i], isA, q)
    ensures var t := Final(moves, s); Missed(Me(t, isA), Peer(t, isA), n, OnLine(q))
    decreases moves
  {
    hide Missed, Possible, TwoEngines.Step;
    if moves != [] {
      MissedStep(s, moves[0], isA, n, q);
      MissedStays(TwoEngines.Step(s, moves[0]), moves[1..], isA, n, q);
    }
  }

  /** A packet q submitted while the peer has already accepted the one pending is never delivered, whatever happens
      afterwards, unless the host hands it over again. */
  lemma ReplacedStaysLost(s: System, moves: seq<Move>, isA: bool, q: Packet, more: seq<Move>)
    requires Fresh(s.a) && Fresh(s.b) && Valid(moves, s) && MaySubmit(q)
    requires var t := Final(moves, s);
             && AcceptedByPeer(Me(t, isA), Peer(t, isA)) && OnLine(q) !in Peer(t, isA).delivered
             && Valid(more, TwoEngines.Step(t, Move(isA, Submits(q))))
    requires forall i :: 0 <= i < |more| ==> !HandsOver(more[i], isA, q)
    ensures var u := Final(more, TwoEngines.Step(Final(moves, s), Move(isA, Submits(q))));
            OnLine(q) !in Peer(u, isA).delivered
  {
    hide Final, Valid, OnLine, Missed;
    var t, m := Final(moves, s), Move(isA, Submits(q));
    var t1 := TwoEngines.Step(t, m);
    var n := |Peer(t, isA).delivered|;
    GoesOutAsDuplicate(s, moves, isA);
    NowMissed(Me(t, isA), Peer(t, isA), q);
    MissedStays(t1, more, isA, n, q);
    OneMove(t, m);
    ValidConcat(s, moves, [m]);
    ValidConcat(s, moves + [m], more);
    OncePerNumberDelivery(s, moves + [m] + more);
    var u := Final(more, t1);
    MissedIsNotDelivered(Me(u, isA), Peer(u, isA), n, OnLine(q));
  }

  lemma OneMove(s: System, m: Move)
    requires Possible(s, m)
    ensures Valid([m], s) && Final([m], s) == TwoEngines.Step(s, m)
  {
    hide Possible, TwoEngines.Step;
    assert [m][1..] == [];
  }

  lemma NowMissed(x: Side, y: Side, q: Packet)
    requires x.link.out.Some? && |x.submitted| == |y.delivered| && |x.submitted| > 0 && OnLine(q) !in y.delivered
    ensures Missed(Submitting(x, q), y, |y.delivered|, OnLine(q))
  {
    hide OnLine;
    assert y.delivered[..|y.delivered|] == y.delivered;
  }

  lemma MissedIsNotDelivered(x: Side, y: Side, n: nat, q: Packet)
    requires Missed(x, y, n, q) && OneOfEach(y.delivered, x.submitted)
    ensures q !in y.delivered
  {
    forall k | 0 <= k < |y.delivered| ensures y.delivered[k] != q {
      assert k < n ==> y.delivered[..n][k] == y.delivered[k];
    }
  }

  /** And it is retired all the same, and so reported sent: some continuation without new submissions gets every number
      acknowledged, q's among them, while nothing more is delivered. */
  lemma ReplacedIsLost(s: System, moves: seq<Move>, isA: bool, q: Packet) returns (more: seq<Move>)
    requires Fresh(s.a) && Fresh(s.b) && Valid(moves, s) && MaySubmit(q)
    requires var t := Final(moves, s); AcceptedByPeer(Me(t, isA), Peer(t, isA))
    ensures var t := Final(moves, s);
            var t1 := TwoEngines.Step(t, Move(isA, Submits(q)));
            && Me(t1, isA).link.out == Some(q) && |Me(t1, isA).submitted| == Me(t, isA).retired + 1
            && Valid(more, t1)
            && var u := Final(more, t1);
               && Me(u, isA).link.out.None? && Me(u, isA).retired == Me(t, isA).retired + 1
               && Peer(u, isA).delivered == Peer(t, isA).delivered
  {
    hide Final, Valid, OnLine, Both;
    var t, m := Final(moves, s), Move(isA, Submits(q));
    var t1 := TwoEngines.Step(t, m);
    GoesOutAsDuplicate(s, moves, isA);
    OneMove(t, m);
    ValidConcat(s, moves, [m]);
    more := NeverStuck(s, moves + [m]);
    var u := Final(more, t1);
    DeliveredGrows(t1, more, !isA);
    ValidConcat(s, moves + [m], more);
    ReachableBoth(s, moves + [m] + more, isA);
    NothingPending(Me(u, isA), Peer(u, isA));
  }

  lemma NothingPending(x: Side, y: Side)
    requires Both(x, y)
    ensures x.retired == |x.submitted| ==> x.link.out.None?
  {
    hide DataInFlight, AcksInFlight, Established;
  }
}
