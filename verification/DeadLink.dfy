/** How link establishment dies: when exactly an engine that is not active is left with nothing to establish, what
    brings it back, and what that means for an engine whose peer has restarted. */
module DeadLink {
  import opened Framing
  import opened FrameLevel
  import opened TwoEngines
  import opened Progress

  // ---------- one engine ----------

  /** Not active, and nothing left to establish: no SYNC, SYNC RESP or CONF will be started. */
  predicate Mute(l: Link) {
    l.le != ACTIVE && l.pkt == NONE
  }

  /** Nor is there a CONF RESP to start. */
  predicate Wedged(l: Link) {
    Mute(l) && l.resp != RESPOND_CONF
  }

  /** The action accepts a link establishment frame of this kind. */
  predicate Heard(a: Action, k: LePacket) {
    a.Accepted? && a.seen.channel == LE_CHANNEL && a.seen.le == k
  }

  predicate Unmutes(a: Action) {
    a.Restarted? || Heard(a, CONF_RESP)
  }

  /** The pending packet is not one that would pass for link establishment. */
  predicate ProperPending(l: Link) {
    l.out.Some? ==> ChannelField(l.out.value.channel) != LE_CHANNEL
  }

  /** All that accepting a frame does to link establishment. */
  lemma AcceptedLe(l: Link, s: Seen)
    ensures var e := Accept(l, s);
            var le := if s.channel == LE_CHANNEL then s.le else 5;
            && (e.reset <==> le == SYNC && l.le == ACTIVE)
            && (e.link.out == l.out || e.link.out.None?)
            && (if e.reset then e.link.le == UNINITIALIZED && e.link.pkt == SYNC && e.link.resp == l.resp
                else
                  && e.link.pkt == l.pkt
                  && e.link.le == (if le == SYNC_RESP && l.le == UNINITIALIZED then INITIALIZED
                                   else if le == CONF_RESP then ACTIVE else l.le)
                  && e.link.resp == (if le == SYNC then RESPOND_SYNC
                                     else if le == CONF && l.le >= INITIALIZED then RESPOND_CONF else l.resp))
  {
    hide Increment;
  }

  /** Exactly one thing makes an engine mute, a frame started without being initialized but with a CONF RESP pending;
      and exactly two things end it, a restart and a CONF RESP. For every state and every action. */
  lemma MuteStep(l: Link, a: Action)
    ensures Mute(Act(l, a)) <==>
            if Mute(l) then !Unmutes(a)
            else a.Start? && l.pkt != NONE && l.le == UNINITIALIZED && l.resp == RESPOND_CONF
    ensures Mute(l) && ProperPending(l) && NextFrame(l).frame.Some? && IsLe(NextFrame(l).frame.value) ==>
              l.resp == RESPOND_CONF && NextFrame(l).frame.value == LeFrame(CONF_RESP)
  {
    hide Increment, Accept, LeFrame;
    if a.Accepted? {
      AcceptedLe(l, a.seen);
    }
  }

  /** Over every run: a mute engine is mute at each moment if and only if no action is a restart or a CONF RESP. */
  lemma {:induction false} StaysMute(l: Link, actions: seq<Action>)
    requires Mute(l)
    ensures (forall i :: 0 <= i <= |actions| ==> Mute(Run(l, actions[..i]))) <==>
            (forall i :: 0 <= i < |actions| ==> !Unmutes(actions[i]))
    decreases actions
  {
    hide Act, Mute, Unmutes;
    if actions == [] {
      assert Run(l, actions[..0]) == l;
    } else {
      var l1 := Act(l, actions[0]);
      MuteStep(l, actions[0]);
      FirstOfRun(l, actions);
      if Mute(l1) {
        StaysMute(l1, actions[1..]);
        if forall i :: 0 <= i <= |actions| ==> Mute(Run(l, actions[..i])) {
          forall i | 0 <= i <= |actions[1..]| ensures Mute(Run(l1, actions[1..][..i])) {
            assert Mute(Run(l, actions[..i + 1]));
          }
          forall i | 0 <= i < |actions| ensures !Unmutes(actions[i]) {
            assert i > 0 ==> actions[i] == actions[1..][i - 1];
          }
        }
        if forall i :: 0 <= i < |actions| ==> !Unmutes(actions[i]) {
          forall i | 0 <= i <= |actions| ensures Mute(Run(l, actions[..i])) {
            assert i > 0 ==> Run(l, actions[..i]) == Run(l1, actions[1..][..i - 1]);
          }
        }
      } else {
        assert !Mute(Run(l, actions[..1]));
      }
    }
  }

  lemma FirstOfRun(l: Link, actions: seq<Action>)
    requires actions != []
    ensures Run(l, actions[..0]) == l
    ensures forall i :: 1 <= i <= |actions| ==> Run(l, actions[..i]) == Run(Act(l, actions[0]), actions[1..][..i - 1])
  {
    hide Act;
    forall i | 1 <= i <= |actions| ensures Run(l, actions[..i]) == Run(Act(l, actions[0]), actions[1..][..i - 1]) {
      assert actions[..i][0] == actions[0] && actions[..i][1..] == actions[1..][..i - 1];
    }
  }

  /** A wedged engine starts no link establishment frame at all, and stays wedged but for a restart, a CONF RESP, or,
      if a SYNC RESP has initialized it meanwhile, a CONF. */
  lemma WedgedStep(l: Link, a: Action)
    requires Wedged(l)
    ensures Wedged(Act(l, a)) <==> !(Unmutes(a) || (Heard(a, CONF) && l.le == INITIALIZED))
    ensures ProperPending(l) && NextFrame(l).frame.Some? ==> !IsLe(NextFrame(l).frame.value)
  {
    hide Increment, Accept;
    if a.Accepted? {
      AcceptedLe(l, a.seen);
    }
  }

  /** Nothing in the run revives the link. */
  predicate NotRevived(l: Link, actions: seq<Action>)
    decreases actions
  {
    actions != [] ==>
      && !(Unmutes(actions[0]) || (Heard(actions[0], CONF) && l.le == INITIALIZED))
      && NotRevived(Act(l, actions[0]), actions[1..])
  }

  /** Over every run: a dead link stays dead if and only if nothing in the run revives it. */
  lemma {:induction false} DeadStaysDead(l: Link, actions: seq<Action>)
    requires Wedged(l)
    ensures (forall i :: 0 <= i <= |actions| ==> Wedged(Run(l, actions[..i]))) <==> NotRevived(l, actions)
    decreases actions
  {
    hide Act, Wedged, Unmutes, Heard;
    if actions == [] {
      assert Run(l, actions[..0]) == l;
    } else {
      var l1 := Act(l, actions[0]);
      WedgedStep(l, actions[0]);
      FirstOfRun(l, actions);
      if Wedged(l1) {
        DeadStaysDead(l1, actions[1..]);
        if forall i :: 0 <= i <= |actions| ==> Wedged(Run(l, actions[..i])) {
          forall i | 0 <= i <= |actions[1..]| ensures Wedged(Run(l1, actions[1..][..i])) {
            assert Wedged(Run(l, actions[..i + 1]));
          }
        }
        if NotRevived(l, actions) {
          forall i | 0 <= i <= |actions| ensures Wedged(Run(l, actions[..i])) {
            assert i > 0 ==> Run(l, actions[..i]) == Run(l1, actions[1..][..i - 1]);
          }
        }
      } else {
        assert !Wedged(Run(l, actions[..1]));
      }
    }
  }

  // ---------- the reset that kills ----------

  /** No frame is started, and there is no further reset. */
  predicate Between(l: Link, actions: seq<Action>)
    decreases actions
  {
    actions != [] ==>
      !actions[0].Start? && !Resets(l, actions[0]) && Between(Act(l, actions[0]), actions[1..])
  }

  /** What saves the engine if it is received before the next frame is started. */
  predicate Rescues(a: Action) {
    Heard(a, SYNC) || Heard(a, SYNC_RESP) || Heard(a, CONF_RESP)
  }

  predicate Doomed(l: Link) {
    l.pkt == SYNC && l.le == UNINITIALIZED && l.resp == RESPOND_CONF
  }

  predicate Saved(l: Link) {
    l.pkt == SYNC && (l.le != UNINITIALIZED || l.resp != RESPOND_CONF)
  }

  lemma ResetDooms(l: Link, a: Action)
    requires l.resp == RESPOND_CONF && Resets(l, a)
    ensures Doomed(Act(l, a))
  {
    hide Accept;
    if a.Accepted? {
      AcceptedLe(l, a.seen);
    }
  }

  lemma BetweenStep(l: Link, a: Action)
    requires !a.Start? && !Resets(l, a)
    ensures Doomed(l) ==> if Rescues(a) then Saved(Act(l, a)) else Doomed(Act(l, a))
    ensures Saved(l) ==> Saved(Act(l, a))
  {
    hide Accept;
    if a.Accepted? {
      AcceptedLe(l, a.seen);
    }
  }

  lemma {:induction false} StaysSaved(l: Link, actions: seq<Action>)
    requires Saved(l) && Between(l, actions)
    ensures Saved(Run(l, actions))
    decreases actions
  {
    hide Act, Saved, Resets;
    if actions != [] {
      BetweenStep(l, actions[0]);
      StaysSaved(Act(l, actions[0]), actions[1..]);
    }
  }

  lemma {:induction false} DoomedUnlessRescued(l: Link, actions: seq<Action>)
    requires Doomed(l) && Between(l, actions)
    ensures if exists i :: 0 <= i < |actions| && Rescues(actions[i])
            then Saved(Run(l, actions)) else Doomed(Run(l, actions))
    decreases actions
  {
    hide Act, Saved, Doomed, Resets, Rescues;
    if actions != [] {
      BetweenStep(l, actions[0]);
      var l1 := Act(l, actions[0]);
      if Rescues(actions[0]) {
        StaysSaved(l1, actions[1..]);
      } else {
        DoomedUnlessRescued(l1, actions[1..]);
        assert forall i :: 0 < i < |actions| ==> actions[i] == actions[1..][i - 1];
        assert forall i :: 0 <= i < |actions[1..]| ==> actions[1..][i] == actions[i + 1];
      }
    }
  }

  lemma StartDecides(l: Link)
    requires Doomed(l) || Saved(l)
    ensures NextFrame(l).frame == Some(LeFrame(SYNC))
    ensures Wedged(Act(l, Start)) <==> Doomed(l)
  {
  }

  /** Any reset with a CONF RESP pending, by the peer's SYNC or by the host, leaves one last SYNC to start; and with
      it link establishment is dead if and only if no SYNC, SYNC RESP or CONF RESP came in between. */
  lemma ResetWhileConfirmingKills(l: Link, a: Action, between: seq<Action>)
    requires l.resp == RESPOND_CONF && Resets(l, a) && Between(Act(l, a), between)
    ensures var m := Run(Act(l, a), between);
            && NextFrame(m).frame == Some(LeFrame(SYNC))
            && (Wedged(Act(m, Start)) <==> forall i :: 0 <= i < |between| ==> !Rescues(between[i]))
  {
    hide Act, Resets, Rescues, Wedged, Between;
    ResetDooms(l, a);
    DoomedUnlessRescued(Act(l, a), between);
    StartDecides(Run(Act(l, a), between));
  }

  /** Five frames received are enough, starting from an engine that has just been initialized. */
  lemma FromInitializedToDead(l: Link)
    requires l == Initialize(l)
    ensures var heard := k => Accepted(Seen(false, 0, 0, LE_CHANNEL, true, k));
            Wedged(Run(l, [heard(SYNC_RESP), heard(CONF_RESP), heard(CONF), heard(SYNC), Start]))
  {
    hide Increment;
    var heard := k => Accepted(Seen(false, 0, 0, LE_CHANNEL, true, k));
    var l1 := Act(Act(Act(l, heard(SYNC_RESP)), heard(CONF_RESP)), heard(CONF));
    assert Wedged(Act(Act(l1, heard(SYNC)), Start));
    RunFive(l, heard(SYNC_RESP), heard(CONF_RESP), heard(CONF), heard(SYNC), Start);
  }

  lemma RunFirst(l: Link, a: Action, rest: seq<Action>)
    ensures Run(l, [a] + rest) == Run(Act(l, a), rest)
  {
    hide Act;
    assert ([a] + rest)[1..] == rest;
  }

  lemma RunFive(l: Link, a: Action, b: Action, c: Action, d: Action, e: Action)
    ensures Run(l, [a, b, c, d, e]) == Act(Act(Act(Act(Act(l, a), b), c), d), e)
  {
    hide Act, Run;
    var m := Act(Act(Act(l, a), b), c);
    assert [a, b, c, d, e] == [a] + ([b] + ([c] + ([d] + ([e] + []))));
    RunFirst(l, a, [b] + ([c] + ([d] + ([e] + []))));
    RunFirst(Act(l, a), b, [c] + ([d] + ([e] + [])));
    RunFirst(Act(Act(l, a), b), c, [d] + ([e] + []));
    RunFirst(m, d, [e] + []);
    RunFirst(Act(m, d), e, []);
    RunNothing(Act(Act(m, d), e));
  }

  lemma RunNothing(l: Link)
    ensures Run(l, []) == l
  {
  }

  // ---------- two engines ----------

  ghost predicate Without(wire: seq<Sent>, k: LePacket) {
    forall i :: 0 <= i < |wire| ==> !IsLeKind(wire[i].frame, k)
  }

  /** No CONF is on its way to y, and no CONF RESP is or will be sent by it. */
  ghost predicate Unasked(x: Side, y: Side) {
    && ProperPending(x.link) && ProperPending(y.link)
    && Without(x.wire, CONF) && Without(y.wire, CONF_RESP)
    && y.link.resp != RESPOND_CONF && y.link.pkt != CONF_RESP
  }

  /** x is mute, and no CONF is left that y could still answer with the CONF RESP that x would need. */
  ghost predicate Unanswered(x: Side, y: Side) {
    Mute(x.link) && Unasked(x, y)
  }

  /** The link establishment frame that is started, if any. */
  lemma StartedLe(l: Link)
    requires ProperPending(l) && NextFrame(l).frame.Some?
    ensures var f := NextFrame(l).frame.value;
            && (IsLeKind(f, CONF) ==> l.pkt == CONF)
            && (IsLeKind(f, CONF_RESP) ==> l.pkt == CONF_RESP || l.resp == RESPOND_CONF)
    ensures var m := NextFrame(l).link;
            && m.out == l.out && m.le == l.le && (l.pkt == NONE ==> m.pkt == NONE)
            && (m.resp == RESPOND_CONF ==> l.resp == RESPOND_CONF)
            && (m.pkt == CONF_RESP ==> l.resp == RESPOND_CONF || (l.pkt == NONE && l.pkt == m.pkt))
  {
    hide LeFrame, IsLeKind, ChannelField;
    if l.pkt != NONE {
      LeFrameSeen(l.pkt);
      OneKind(LeFrame(l.pkt), l.pkt);
    } else if l.resp == RESPOND_CONF {
      LeFrameSeen(CONF_RESP);
      OneKind(LeFrame(CONF_RESP), CONF_RESP);
    } else {
      OtherKind(NextFrame(l).frame.value);
    }
  }

  lemma OneKind(f: Frame, k: LePacket)
    requires IsLeKind(f, k)
    ensures forall j: LePacket :: IsLeKind(f, j) ==> j == k
  {
  }

  lemma OtherKind(f: Frame)
    requires !IsLe(f)
    ensures forall j: LePacket :: !IsLeKind(f, j)
  {
  }

  /** What a frame can do to the two links while no CONF reaches y and no CONF RESP reaches x. */
  lemma HeardFrame(l: Link, f: Frame)
    ensures var m := Accept(l, See(f)).link;
            && (m.out == l.out || m.out.None?)
            && (!IsLeKind(f, CONF_RESP) && Mute(l) ==> Mute(m))
            && (!IsLeKind(f, CONF) && l.resp != RESPOND_CONF ==> m.resp != RESPOND_CONF)
            && (l.pkt != CONF_RESP ==> m.pkt != CONF_RESP)
  {
    hide Accept, See;
    AcceptedLe(l, See(f));
    SeeFields(f);
  }

  lemma MuteSideMoves(x: Side, y: Side, e: Event)
    requires Unanswered(x, y) && Enabled(x, y, e)
    ensures Unanswered(Moved(x, y, e).0, Moved(x, y, e).1)
  {
    hide NextFrame, Accept, See, IsLeKind, ChannelField, Filed;
    match e
    case Starts => StartedLe(x.link);
    case Receives => HeardFrame(x.link, y.wire[0].frame);
    case Loses(i) => LosingWire(x, i);
    case _ =>
  }

  lemma OtherSideMoves(x: Side, y: Side, e: Event)
    requires Unasked(x, y) && Enabled(y, x, e)
    ensures Unasked(Moved(y, x, e).1, Moved(y, x, e).0) && Moved(y, x, e).1.link == x.link
  {
    hide NextFrame, Accept, See, IsLeKind, ChannelField, Filed;
    match e
    case Starts => StartedLe(y.link);
    case Receives => HeardFrame(y.link, x.wire[0].frame);
    case Loses(i) => LosingWire(y, i);
    case _ =>
  }

  /** The counterpart of Progress.NeverStuck: whatever the two engines, their hosts and the channels do from there, x
      never becomes active, so the handshake is never complete. */
  lemma {:induction false} NeverSettles(s: System, moves: seq<Move>, isA: bool)
    requires Unanswered(Me(s, isA), Peer(s, isA)) && Valid(moves, s)
    ensures var t := Final(moves, s);
            && Unanswered(Me(t, isA), Peer(t, isA))
            && Me(t, isA).link.le != ACTIVE && !Settled(LeA(t), LeB(t))
    decreases moves
  {
    hide Moved, Enabled, Unasked;
    if moves != [] {
      if moves[0].byA == isA {
        MuteSideMoves(Me(s, isA), Peer(s, isA), moves[0].event);
      } else {
        OtherSideMoves(Me(s, isA), Peer(s, isA), moves[0].event);
      }
      NeverSettles(TwoEngines.Step(s, moves[0]), moves[1..], isA);
    }
  }

  lemma UnansweredIsMute(x: Side, y: Side)
    requires Unanswered(x, y)
    ensures Mute(x.link)
  {
  }

  /** Which link establishment frame a move makes this side read; 5 if none. */
  function KindRead(s: System, m: Move, isA: bool): nat
    requires Possible(s, m)
  {
    if m.byA == isA && m.event.Receives? && IsLe(Peer(s, isA).wire[0].frame) then See(Peer(s, isA).wire[0].frame).le
    else 5
  }

  /** In these moves this side starts nothing, and of what it reads exactly one frame is a SYNC, after which there is no
      SYNC RESP and no CONF RESP. heard: the SYNC has been read already. */
  ghost predicate OneSync(s: System, moves: seq<Move>, isA: bool, heard: bool)
    requires Valid(moves, s)
    decreases moves
  {
    if moves == [] then heard
    else
      var k := KindRead(s, moves[0], isA);
      && !(moves[0].byA == isA && moves[0].event.Starts?)
      && !(heard && (k == SYNC || k == SYNC_RESP || k == CONF_RESP))
      && OneSync(TwoEngines.Step(s, moves[0]), moves[1..], isA, heard || k == SYNC)
  }

  /** Active with a CONF RESP pending until the SYNC is read, and doomed from then on. */
  predicate Endangered(l: Link, heard: bool) {
    if heard then Doomed(l) else l.le == ACTIVE && l.resp == RESPOND_CONF
  }

  lemma ReadEndangers(l: Link, f: Frame, heard: bool)
    requires Endangered(l, heard)
    requires IsLe(f) && heard ==> !(See(f).le == SYNC || See(f).le == SYNC_RESP || See(f).le == CONF_RESP)
    ensures Endangered(Accept(l, See(f)).link, heard || (IsLe(f) && See(f).le == SYNC))
  {
    hide Accept, See;
    AcceptedLe(l, See(f));
    SeeFields(f);
  }

  lemma QuietMove(x: Side, y: Side, e: Event, heard: bool)
    requires Unasked(x, y) && Enabled(x, y, e) && Endangered(x.link, heard) && !e.Starts?
    requires e.Receives? && IsLe(y.wire[0].frame) && heard ==>
               var k := See(y.wire[0].frame).le; !(k == SYNC || k == SYNC_RESP || k == CONF_RESP)
    ensures var (x', y') := Moved(x, y, e);
            Unasked(x', y') &&
            Endangered(x'.link, heard || (e.Receives? && IsLe(y.wire[0].frame) && See(y.wire[0].frame).le == SYNC))
  {
    hide NextFrame, Accept, See, IsLeKind, ChannelField, Filed;
    match e
    case Receives =>
      HeardFrame(x.link, y.wire[0].frame);
      ReadEndangers(x.link, y.wire[0].frame, heard);
    case Loses(i) => LosingWire(x, i);
    case _ =>
  }

  lemma {:induction false} OneSyncDooms(s: System, moves: seq<Move>, isA: bool, heard: bool)
    requires Unasked(Me(s, isA), Peer(s, isA)) && Endangered(Me(s, isA).link, heard)
    requires Valid(moves, s) && OneSync(s, moves, isA, heard)
    ensures var t := Final(moves, s);
            Unasked(Me(t, isA), Peer(t, isA)) && Doomed(Me(t, isA).link)
    decreases moves
  {
    hide Moved, Enabled, Unasked, See;
    if moves != [] {
      var m := moves[0];
      var k := KindRead(s, m, isA);
      if m.byA == isA {
        QuietMove(Me(s, isA), Peer(s, isA), m.event, heard);
      } else {
        OtherSideMoves(Me(s, isA), Peer(s, isA), m.event);
      }
      OneSyncDooms(TwoEngines.Step(s, m), moves[1..], isA, heard || k == SYNC);
    }
  }

  /** The frame a doomed engine starts is its last SYNC. */
  lemma LastSync(x: Side, y: Side)
    requires Unasked(x, y) && Doomed(x.link)
    ensures NextFrame(x.link).frame.Some? && Unanswered(Starting(x), y)
  {
    hide LeFrame, IsLeKind, ChannelField;
    LeFrameSeen(SYNC);
    OneKind(LeFrame(SYNC), SYNC);
  }

  lemma FreshIsUnasked(x: Side, y: Side)
    requires ProperPending(x.link) && Without(x.wire, CONF) && Fresh(y)
    ensures Unasked(x, y)
  {
    hide IsLeKind;
  }

  /** An engine is active with a CONF RESP pending when its peer restarts, and no CONF of its own is on its way. If it
      reads one SYNC of the restarted peer before it next starts a frame, and after that neither another SYNC nor a
      SYNC RESP nor a CONF RESP, then, whatever else happens before and whatever happens afterwards, and however often
      the peer asks, it is never active again. */
  lemma PeerRestartIsFatal(s: System, early: seq<Move>, late: seq<Move>, isA: bool)
    requires Me(s, isA).link.le == ACTIVE && Me(s, isA).link.resp == RESPOND_CONF
    requires ProperPending(Me(s, isA).link) && Without(Me(s, isA).wire, CONF) && Fresh(Peer(s, isA))
    requires Valid(early, s) && OneSync(s, early, isA, false)
    requires Valid([Move(isA, Starts)] + late, Final(early, s))
    ensures var t := Final([Move(isA, Starts)] + late, Final(early, s));
            Me(t, isA).link.le != ACTIVE && Mute(Me(t, isA).link) && !Settled(LeA(t), LeB(t))
  {
    hide Unanswered, Unasked, Valid, Final, Moved, Fresh, Mute, OneSync, Doomed, NextFrame, Without;
    FreshIsUnasked(Me(s, isA), Peer(s, isA));
    OneSyncDooms(s, early, isA, false);
    var t, m := Final(early, s), Move(isA, Starts);
    LastSync(Me(t, isA), Peer(t, isA));
    ValidFinal(t, [m], late);
    StartedAlone(t, isA);
    var u := Final([m], t);
    NeverSettles(u, late, isA);
    UnansweredIsMute(Me(Final(late, u), isA), Peer(Final(late, u), isA));
  }

  lemma StartedAlone(s: System, isA: bool)
    requires NextFrame(Me(s, isA).link).frame.Some?
    ensures var m := Move(isA, Starts);
            Valid([m], s) && Me(Final([m], s), isA) == Starting(Me(s, isA)) && Peer(Final([m], s), isA) == Peer(s, isA)
  {
    hide NextFrame, Starting;
    var m := Move(isA, Starts);
    assert [m][1..] == [];
    assert Final([], TwoEngines.Step(s, m)) == TwoEngines.Step(s, m);
  }

  lemma {:induction false} ValidFinal(s: System, first: seq<Move>, rest: seq<Move>)
    requires Valid(first + rest, s)
    ensures Valid(first, s) && Valid(rest, Final(first, s)) && Final(first + rest, s) == Final(rest, Final(first, s))
    decreases first
  {
    hide Possible, TwoEngines.Step;
    if first == [] {
      assert first + rest == rest;
    } else {
      assert (first + rest)[0] == first[0] && (first + rest)[1..] == first[1..] + rest;
      ValidFinal(TwoEngines.Step(s, first[0]), first[1..], rest);
    }
  }
}
