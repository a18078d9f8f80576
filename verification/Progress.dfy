/** The system of TwoEngines never gets stuck: from every reachable state, whatever was lost on the way to it, the
    two engines can still finish the handshake and then get any pending packet across and acknowledged. */
module Progress {
  import opened Framing
  import opened FrameLevel
  import opened FrameLevelRuns
  import opened TwoEngines

  // ---------- link establishment alone ----------

  datatype Phase = Uninit | Init | Active
  datatype Answer = NoAnswer | AnswerSync | AnswerConf
  datatype Kind = Sync | SyncResp | Conf | ConfResp | Silence

  /** The part of a link that link establishment is about. */
  datatype Le = Le(phase: Phase, answer: Answer, pkt: Kind)

  datatype LePair = LePair(x: Le, y: Le)

  datatype LeSending = LeSending(left: Le, sent: Kind)

  function PhaseOf(le: LeState): Phase {
    if le == UNINITIALIZED then Uninit else if le == INITIALIZED then Init else Active
  }

  function AnswerOf(resp: LeResponse): Answer {
    if resp == RESPOND_SYNC then AnswerSync else if resp == RESPOND_CONF then AnswerConf else NoAnswer
  }

  function KindOf(pkt: LePacket): Kind {
    if pkt == SYNC then Sync else if pkt == SYNC_RESP then SyncResp
    else if pkt == CONF then Conf else if pkt == CONF_RESP then ConfResp else Silence
  }

  function LeOf(l: Link): Le {
    Le(PhaseOf(l.le), AnswerOf(l.resp), KindOf(l.pkt))
  }

  function NextKind(phase: Phase, answer: Answer): Kind {
    match (phase, answer)
    case (Uninit, NoAnswer) => Sync
    case (Init, NoAnswer) => Conf
    case (Uninit, AnswerSync) => SyncResp
    case (Init, AnswerSync) => SyncResp
    case (Init, AnswerConf) => ConfResp
    case (Active, AnswerConf) => ConfResp
    case _ => Silence
  }

  lemma NextKindIsTable(le: LeState, resp: LeResponse)
    ensures KindOf(NextLePacket(le, resp)) == NextKind(PhaseOf(le), AnswerOf(resp))
  {
  }

  /** The link establishment frame that goes out next, and what stays behind. */
  function LeStart(v: Le): LeSending {
    if v.pkt != Silence then LeSending(Le(v.phase, NoAnswer, NextKind(v.phase, v.answer)), v.pkt)
    else if v.answer == AnswerConf then LeSending(v.(answer := NoAnswer), ConfResp)
    else LeSending(v, Silence)
  }

  /** Receiving a link establishment frame, when it does not reset the link. */
  function LeHear(v: Le, k: Kind): Le {
    match k
    case Sync => if v.phase != Active then v.(answer := AnswerSync) else v
    case SyncResp => if v.phase == Uninit then v.(phase := Init) else v
    case Conf => if v.phase != Uninit then v.(answer := AnswerConf) else v
    case ConfResp => v.(phase := Active)
    case Silence => v
  }

  /** x sends, y hears. */
  function LePass(x: Le, y: Le): LePair {
    LePair(LeStart(x).left, LeHear(y, LeStart(x).sent))
  }

  /** Each side sends once and hears the other once. */
  function LeRound(x: Le, y: Le): LePair {
    var p := LePass(x, y);
    var q := LePass(p.y, p.x);
    LePair(q.y, q.x)
  }

  predicate LeSound(v: Le) {
    && (v.answer == AnswerConf ==> v.phase != Uninit)
    && (v.pkt == Conf || v.pkt == ConfResp ==> v.phase != Uninit)
    && (v.pkt == Silence ==> v.phase == Active && v.answer != AnswerSync)
  }

  predicate LeAgree(x: Le, y: Le) {
    y.phase == Active ==> x.pkt != Sync && x.phase != Uninit
  }

  predicate LeCoherent(x: Le, y: Le) {
    LeSound(x) && LeSound(y) && LeAgree(x, y) && LeAgree(y, x)
  }

  predicate Settled(x: Le, y: Le) {
    && x.phase == Active && x.pkt == Silence && x.answer != AnswerConf
    && y.phase == Active && y.pkt == Silence && y.answer != AnswerConf
  }

  function Height(p: Phase): nat {
    match p
    case Uninit => 0
    case Init => 1
    case Active => 2
  }

  function Progressed(x: Le, y: Le): (n: nat)
    ensures n <= 4
  {
    Height(x.phase) + Height(y.phase)
  }

  lemma LePassKeeps(x: Le, y: Le)
    requires LeCoherent(x, y)
    ensures var p := LePass(x, y);
            && LeCoherent(p.x, p.y) && p.x.phase == x.phase
            && (p.y.phase == y.phase || Height(p.y.phase) > Height(y.phase))
  {
  }

  lemma LeRoundKeeps(x: Le, y: Le)
    requires LeCoherent(x, y)
    ensures var p := LeRound(x, y);
            && LeCoherent(p.x, p.y)
            && ((p.x.phase == x.phase && p.y.phase == y.phase) || Progressed(p.x, p.y) > Progressed(x, y))
  {
    hide LePass, LeCoherent;
    LePassKeeps(x, y);
    var p := LePass(x, y);
    LeCoherentSwaps(p.x, p.y);
    LePassKeeps(p.y, p.x);
    LeCoherentSwaps(LeRound(x, y).x, LeRound(x, y).y);
  }

  lemma LeCoherentSwaps(x: Le, y: Le)
    ensures LeCoherent(x, y) <==> LeCoherent(y, x)
  {
  }

  /** How many more rounds it can take until one of the two states advances or, with both active, until nothing is
      left to be sent. One function for each pair of states. */
  function Rank(x: Le, y: Le): (r: nat)
    ensures r <= 5
  {
    if x.phase == Uninit && y.phase == Uninit then RankUU(x, y)
    else if x.phase == Uninit && y.phase == Init then RankUI(x, y)
    else if x.phase == Init && y.phase == Uninit then RankIU(x, y)
    else if x.phase == Init && y.phase == Init then RankII(x, y)
    else if x.phase == Init && y.phase == Active then RankIA(x, y)
    else if x.phase == Active && y.phase == Init then RankAI(x, y)
    else RankAA(x, y)
  }

  function RankUU(x: Le, y: Le): nat {
    if y.answer == NoAnswer && y.pkt == SyncResp && x.answer == AnswerSync then 1 else 2
  }

  function RankUI(x: Le, y: Le): nat {
    if y.answer != NoAnswer || (x.pkt != Sync && x.pkt != SyncResp) || y.pkt == Sync then 5
    else if x.answer != NoAnswer || y.pkt == ConfResp then 4
    else if x.pkt == SyncResp then 3
    else if y.pkt == Conf then 2
    else 1
  }

  function RankIU(x: Le, y: Le): nat {
    if y.answer != NoAnswer || x.answer == AnswerConf || (y.pkt != Sync && y.pkt != SyncResp) || x.pkt == Sync then 5
    else if y.pkt == SyncResp || x.pkt == ConfResp then 4
    else if x.answer == NoAnswer then 3
    else if x.pkt == Conf then 2
    else 1
  }

  function RankII(x: Le, y: Le): nat {
    if y.answer != NoAnswer || y.pkt == Sync || x.pkt == Sync then 5
    else if y.pkt == SyncResp || x.answer == AnswerSync then 4
    else if x.answer == NoAnswer || x.pkt == SyncResp then 3
    else if x.pkt == ConfResp && y.pkt == ConfResp then 1
    else 2
  }

  function RankIA(x: Le, y: Le): nat {
    if y.answer != NoAnswer || (y.pkt != ConfResp && y.pkt != Silence) || x.pkt == Sync then 4
    else if x.answer != NoAnswer || y.pkt != Silence then 3
    else if x.pkt == Conf then 1
    else 2
  }

  function RankAI(x: Le, y: Le): nat {
    if y.answer != NoAnswer || (x.pkt != ConfResp && x.pkt != Silence) || x.answer == AnswerSync || y.pkt == Sync then 4
    else if y.pkt != Conf || x.pkt != Silence then 3
    else if x.answer == AnswerConf then 1
    else 2
  }

  function RankAA(x: Le, y: Le): nat {
    if Settled(x, y) then 0
    else if x.answer == NoAnswer && x.pkt == ConfResp && y.answer == NoAnswer && y.pkt == Silence then 1
    else if y.answer == NoAnswer && x.answer != AnswerSync &&
            x.pkt in {ConfResp, Silence} && y.pkt in {ConfResp, Silence} then 2
    else 3
  }

  predicate Closer(x: Le, y: Le) {
    var p := LeRound(x, y);
    p.x.phase != x.phase || p.y.phase != y.phase || Rank(p.x, p.y) < Rank(x, y)
  }

  lemma CloserBothUninitialized(x: Le, y: Le)
    requires LeCoherent(x, y) && x.phase == Uninit && y.phase == Uninit
    ensures Closer(x, y)
  {
    hide RankUI, RankIU, RankII, RankIA, RankAI, RankAA;
  }

  lemma CloserFirstUninitialized(x: Le, y: Le)
    requires LeCoherent(x, y) && x.phase == Uninit && y.phase == Init
    ensures Closer(x, y)
  {
    hide RankUU, RankIU, RankII, RankIA, RankAI, RankAA;
  }

  lemma CloserSecondUninitialized(x: Le, y: Le)
    requires LeCoherent(x, y) && x.phase == Init && y.phase == Uninit
    ensures Closer(x, y)
  {
    hide RankUU, RankUI, RankII, RankIA, RankAI, RankAA;
  }

  lemma CloserBothInitialized(x: Le, y: Le)
    requires LeCoherent(x, y) && x.phase == Init && y.phase == Init
    ensures Closer(x, y)
  {
    hide RankUU, RankUI, RankIU, RankIA, RankAI, RankAA;
  }

  lemma CloserFirstInitialized(x: Le, y: Le)
    requires LeCoherent(x, y) && x.phase == Init && y.phase == Active
    ensures Closer(x, y)
  {
    hide RankUU, RankUI, RankIU, RankII, RankAI, RankAA;
  }

  lemma CloserSecondInitialized(x: Le, y: Le)
    requires LeCoherent(x, y) && x.phase == Active && y.phase == Init
    ensures Closer(x, y)
  {
    hide RankUU, RankUI, RankIU, RankII, RankIA, RankAA;
  }

  lemma CloserBothActive(x: Le, y: Le)
    requires LeCoherent(x, y) && x.phase == Active && y.phase == Active && !Settled(x, y)
    ensures Closer(x, y)
  {
    hide RankUU, RankUI, RankIU, RankII, RankIA, RankAI;
  }

  /** How many rounds the handshake can still take. */
  function Distance(x: Le, y: Le): nat {
    6 * (4 - Progressed(x, y)) + Rank(x, y)
  }

  /** A round without losses advances a link state or brings the rank, at most five, down; either way the distance
      to the end of the handshake, at most 26 rounds, shrinks. */
  lemma EveryRoundIsCloser(x: Le, y: Le)
    requires LeCoherent(x, y) && !Settled(x, y)
    ensures Closer(x, y) && Rank(x, y) <= 5
    ensures var p := LeRound(x, y);
            LeCoherent(p.x, p.y) && Distance(p.x, p.y) < Distance(x, y) <= 26
  {
    hide LeRound, Rank;
    CloserByCases(x, y);
    LeRoundKeeps(x, y);
    if Progressed(x, y) == 0 {
      RankOfNothing(x, y);
    }
  }

  lemma RankOfNothing(x: Le, y: Le)
    requires x.phase == Uninit && y.phase == Uninit
    ensures Rank(x, y) <= 2
  {
  }

  function LeRounds(x: Le, y: Le, n: nat): LePair
    decreases n
  {
    if n == 0 then LePair(x, y)
    else
      var p := LeRound(x, y);
      LeRounds(p.x, p.y, n - 1)
  }

  /** So after 26 rounds without losses, or fewer, the handshake is over on both sides, and stays so. */
  lemma {:induction false} HandshakeIsBounded(x: Le, y: Le, n: nat)
    requires LeCoherent(x, y) && n >= Distance(x, y)
    ensures Distance(x, y) <= 26
    ensures var p := LeRounds(x, y, n);
            Settled(p.x, p.y)
    decreases n
  {
    hide LeRound, Distance, LeCoherent, Settled;
    var p := LeRound(x, y);
    if Settled(x, y) {
      SettledRound(x, y);
      if n > 0 {
        HandshakeIsBounded(x, y, n - 1);
      }
    } else {
      EveryRoundIsCloser(x, y);
      HandshakeIsBounded(p.x, p.y, n - 1);
    }
  }

  lemma SettledRound(x: Le, y: Le)
    requires Settled(x, y)
    ensures LeRound(x, y) == LePair(x, y) && Distance(x, y) == 0
  {
  }

  lemma CloserByCases(x: Le, y: Le)
    requires LeCoherent(x, y) && !Settled(x, y)
    ensures Closer(x, y)
  {
    hide Closer, Rank;
    if x.phase == Uninit {
      if y.phase == Uninit { CloserBothUninitialized(x, y); } else { CloserFirstUninitialized(x, y); }
    } else if x.phase == Init {
      if y.phase == Uninit { CloserSecondUninitialized(x, y); }
      else if y.phase == Init { CloserBothInitialized(x, y); }
      else { CloserFirstInitialized(x, y); }
    } else {
      if y.phase == Init { CloserSecondInitialized(x, y); } else { CloserBothActive(x, y); }
    }
  }

  // ---------- passing one frame ----------

  /** x starts its next frame, if it has one to send, and y receives it. */
  function Pass(x: Side, y: Side): (Side, Side)
    requires x.wire == []
  {
    if NextFrame(x.link).frame.None? then (x, y)
    else (Starting(x).(wire := []), Receiving(y, NextFrame(x.link).frame.value))
  }

  /** What passing a frame keeps: the invariant, the channels empty, everything submitted, nothing undone. */
  predicate Preserved(x: Side, y: Side, x': Side, y': Side) {
    && x'.wire == [] && y'.wire == y.wire
    && x'.submitted == x.submitted && y'.submitted == y.submitted
    && x'.retired == x.retired && y'.retired >= y.retired
  }

  function PassMoves(x: Side, isA: bool): seq<Move> {
    if NextFrame(x.link).frame.None? then [] else [Move(isA, Starts), Move(!isA, Receives)]
  }

  lemma PassKeeps(x: Side, y: Side)
    requires Both(x, y) && x.wire == []
    ensures var (x', y') := Pass(x, y);
            Both(x', y') && Preserved(x, y, x', y')
  {
    hide Both, NextFrame, Accept, See;
    if NextFrame(x.link).frame.Some? {
      var x1 := Starting(x);
      MoveKeeps(x, y, Starts);
      BothSwaps(x1, y);
      assert x1.wire[0].frame == NextFrame(x.link).frame.value && x1.wire[1..] == [];
      MoveKeeps(y, x1, Receives);
      BothSwaps(Moved(y, x1, Receives).0, Moved(y, x1, Receives).1);
    }
  }

  lemma PassIsMoves(s: System, isA: bool)
    requires Both(Me(s, isA), Peer(s, isA)) && Me(s, isA).wire == []
    ensures var moves := PassMoves(Me(s, isA), isA);
            && Valid(moves, s)
            && var t := Final(moves, s);
               (Me(t, isA), Peer(t, isA)) == Pass(Me(s, isA), Peer(s, isA))
  {
    hide Both, NextFrame, Accept, See;
    var x := Me(s, isA);
    if NextFrame(x.link).frame.Some? {
      var moves := PassMoves(x, isA);
      var s1 := TwoEngines.Step(s, moves[0]);
      assert moves[1..] == [moves[1]] && moves[1..][1..] == [];
      assert Starting(x).wire[1..] == [];
      assert Possible(s1, moves[1]) && Valid([], TwoEngines.Step(s1, moves[1]));
      assert Valid(moves[1..], s1);
      assert Final(moves, s) == Final(moves[1..], s1) == TwoEngines.Step(s1, moves[1]);
    }
  }

  /** Seen from link establishment, passing a frame is LePass. */
  lemma PassIsLePass(x: Side, y: Side)
    requires Both(x, y) && x.wire == []
    ensures var (x', y') := Pass(x, y);
            LePair(LeOf(x'.link), LeOf(y'.link)) == LePass(LeOf(x.link), LeOf(y.link))
  {
    if NextFrame(x.link).frame.Some? {
      StartIsLeStart(x, y);
      ReceiveIsLeHear(x, y);
    } else {
      NothingStarts(x.link);
    }
  }

  lemma NothingStarts(l: Link)
    requires NextFrame(l).frame.None?
    ensures LeStart(LeOf(l)) == LeSending(LeOf(l), Silence)
    ensures forall v: Le :: LeHear(v, Silence) == v
  {
  }

  /** The frame is of this kind, Silence standing for data and ack frames. */
  predicate Carries(f: Frame, k: Kind) {
    if k == Silence then !IsLe(f) else IsLe(f) && See(f).le < NONE && KindOf(See(f).le) == k
  }

  lemma StartIsLeStart(x: Side, y: Side)
    requires Both(x, y) && NextFrame(x.link).frame.Some?
    ensures LeOf(NextFrame(x.link).link) == LeStart(LeOf(x.link)).left
    ensures var f, k := NextFrame(x.link).frame.value, LeStart(LeOf(x.link)).sent;
            Carries(f, k)
  {
    hide Established, DataInFlight, AcksInFlight, See, LeFrame, NextLePacket, ChannelField;
    EstablishedConsistent(x, y);
    StartedFrame(x.link);
    LeFrameSeen(CONF_RESP);
    NextKindIsTable(x.link.le, x.link.resp);
  }

  lemma ReceiveIsLeHear(x: Side, y: Side)
    requires Both(x, y) && x.wire == [] && NextFrame(x.link).frame.Some?
    requires var f, k := NextFrame(x.link).frame.value, LeStart(LeOf(x.link)).sent;
             Carries(f, k)
    ensures var f, k := NextFrame(x.link).frame.value, LeStart(LeOf(x.link)).sent;
            LeOf(Accept(y.link, See(f)).link) == LeHear(LeOf(y.link), k)
  {
    hide Both, See, LeStart, NextFrame, Increment;
    var f := NextFrame(x.link).frame.value;
    MoveKeeps(x, y, Starts);
    BothSwaps(Starting(x), y);
    assert Starting(x).wire[0].frame == f;
    NoSpuriousReset(y, Starting(x));
    SeeFields(f);
  }

  // ---------- the schedule ----------

  lemma BothIsCoherent(x: Side, y: Side)
    requires Both(x, y)
    ensures LeCoherent(LeOf(x.link), LeOf(y.link))
  {
    hide Counted, DataInFlight, AcksInFlight;
  }

  lemma {:induction false} ValidConcat(s: System, a: seq<Move>, b: seq<Move>)
    requires Valid(a, s) && Valid(b, Final(a, s))
    ensures Valid(a + b, s) && Final(a + b, s) == Final(b, Final(a, s))
    decreases a
  {
    hide Moved, Enabled;
    if a == [] {
      assert a + b == b;
    } else {
      ValidConcat(TwoEngines.Step(s, a[0]), a[1..], b);
      assert (a + b)[0] == a[0] && (a + b)[1..] == a[1..] + b;
    }
  }

  /** Both channels are empty. */
  predicate Empty(s: System) {
    s.a.wire == [] && s.b.wire == []
  }

  /** t comes after s: everything submitted is still there, and nothing retired is undone. */
  predicate Later(s: System, t: System) {
    && t.a.submitted == s.a.submitted && t.b.submitted == s.b.submitted
    && t.a.retired >= s.a.retired && t.b.retired >= s.b.retired
  }

  /** Whatever is on its way can get lost. */
  lemma {:induction false} Drain(s: System) returns (moves: seq<Move>)
    requires Both(s.a, s.b)
    ensures Valid(moves, s)
    ensures var t := Final(moves, s);
            Both(t.a, t.b) && Empty(t) && Later(s, t)
    ensures |moves| == |s.a.wire| + |s.b.wire|
    decreases |s.a.wire| + |s.b.wire|
  {
    hide Both;
    if Empty(s) {
      moves := [];
    } else {
      var m := Move(s.a.wire != [], Loses(0));
      BothSwaps(s.a, s.b);
      var t := TwoEngines.Step(s, m);
      if m.byA {
        MoveKeeps(s.a, s.b, Loses(0));
      } else {
        MoveKeeps(s.b, s.a, Loses(0));
        BothSwaps(t.a, t.b);
      }
      var rest := Drain(t);
      moves := [m] + rest;
      assert moves[1..] == rest;
    }
  }

  function LeA(s: System): Le { LeOf(s.a.link) }

  function LeB(s: System): Le { LeOf(s.b.link) }

  /** One frame each way. */
  lemma OneRound(s: System) returns (moves: seq<Move>)
    requires Both(s.a, s.b) && Empty(s)
    ensures Valid(moves, s)
    ensures var t := Final(moves, s);
            && |moves| <= 4 && Both(t.a, t.b) && Empty(t) && Later(s, t)
            && LePair(LeA(t), LeB(t)) == LeRound(LeA(s), LeB(s))
            && var (x1, y1) := Pass(s.a, s.b);
               y1.wire == [] && (t.b, t.a) == Pass(y1, x1)
  {
    hide Both, Pass, LePass, Valid, Final;
    PassIsMoves(s, true);
    PassKeeps(s.a, s.b);
    PassIsLePass(s.a, s.b);
    var first := PassMoves(s.a, true);
    var s1 := Final(first, s);
    BothSwaps(s1.a, s1.b);
    PassIsMoves(s1, false);
    PassKeeps(s1.b, s1.a);
    PassIsLePass(s1.b, s1.a);
    var second := PassMoves(s1.b, false);
    ValidConcat(s, first, second);
    moves := first + second;
    var t := Final(moves, s);
    BothSwaps(t.a, t.b);
  }

  /** From any state with empty channels, at most 26 lossless rounds finish the handshake on both sides. */
  lemma {:induction false} Settle(s: System) returns (moves: seq<Move>)
    requires Both(s.a, s.b) && Empty(s)
    ensures Valid(moves, s)
    ensures var t := Final(moves, s);
            Both(t.a, t.b) && Empty(t) && Later(s, t) && Settled(LeA(t), LeB(t))
    ensures |moves| <= 4 * Distance(LeA(s), LeB(s)) <= 4 * 26
    decreases Distance(LeA(s), LeB(s))
  {
    hide Both, Distance, LeRound, Pass;
    if Settled(LeA(s), LeB(s)) {
      moves := [];
      SettledRound(LeA(s), LeB(s));
    } else {
      BothIsCoherent(s.a, s.b);
      EveryRoundIsCloser(LeA(s), LeB(s));
      var first := OneRound(s);
      var rest := Settle(Final(first, s));
      ValidConcat(s, first, rest);
      moves := first + rest;
    }
  }

  // ---------- a pending packet gets across ----------

  /** The data frame of a pending packet is delivered, or was before; either way an acknowledgement is owed. */
  lemma DataPassDelivers(x: Side, y: Side)
    requires Both(x, y) && x.wire == [] && Settled(LeOf(x.link), LeOf(y.link)) && x.link.out.Some?
    ensures var (x', y') := Pass(x, y);
            |y'.delivered| == x.retired + 1 && y'.link.sendAck && x'.link.out == x.link.out
  {
    hide DataInFlight, AcksInFlight, Established, Increment, ChannelField;
    SeeFields(DataFrame(x.link, x.link.out.value));
    IncrementDiffers(Wrap(x.retired));
  }

  /** And the acknowledgement, in a data frame or on its own, retires the packet. */
  lemma AckPassRetires(x: Side, y: Side)
    requires Both(x, y) && y.wire == [] && Settled(LeOf(x.link), LeOf(y.link)) && x.link.out.Some?
    requires |y.delivered| == x.retired + 1 && y.link.sendAck
    ensures var (y', x') := Pass(y, x);
            x'.retired == x.retired + 1
  {
    hide DataInFlight, AcksInFlight, Established, Increment, ChannelField;
    SeeFields(NextFrame(y.link).frame.value);
    IncrementDiffers(Wrap(x.retired));
  }

  lemma SettledStays(x: Le, y: Le)
    requires Settled(x, y)
    ensures LePass(x, y) == LePair(x, y)
  {
  }

  /** One frame each way retires the pending packet of a side, if it has one. */
  lemma RetirePending(s: System, isA: bool) returns (moves: seq<Move>)
    requires Both(s.a, s.b) && Empty(s) && Settled(LeA(s), LeB(s))
    ensures Valid(moves, s)
    ensures var t := Final(moves, s);
            && |moves| <= 4 && Both(t.a, t.b) && Empty(t) && Settled(LeA(t), LeB(t)) && Later(s, t)
            && Me(t, isA).retired == |Me(t, isA).submitted|
  {
    hide Both, Pass, LePass, Valid, Final;
    var x, y := Me(s, isA), Peer(s, isA);
    BothSwaps(s.a, s.b);
    if x.link.out.None? {
      moves := [];
      AllRetired(x, y);
      NoMoves(s);
    } else {
      PassIsMoves(s, isA);
      PassKeeps(x, y);
      PassIsLePass(x, y);
      SettledStays(LeOf(x.link), LeOf(y.link));
      DataPassDelivers(x, y);
      var first := PassMoves(x, isA);
      var s1 := Final(first, s);
      var x1, y1 := Me(s1, isA), Peer(s1, isA);
      BothSwaps(x1, y1);
      PassIsMoves(s1, !isA);
      PassKeeps(y1, x1);
      PassIsLePass(y1, x1);
      SettledStays(LeOf(y1.link), LeOf(x1.link));
      AckPassRetires(x1, y1);
      var second := PassMoves(y1, !isA);
      ValidConcat(s, first, second);
      moves := first + second;
      var t := Final(moves, s);
      BothSwaps(t.a, t.b);
      RetiredOneMore(x, y, Me(t, isA), Peer(t, isA));
    }
  }

  lemma NoMoves(s: System)
    ensures Valid([], s) && Final([], s) == s
  {
  }

  lemma AllRetired(x: Side, y: Side)
    requires Both(x, y)
    ensures x.link.out.None? ==> x.retired == |x.submitted|
    ensures x.retired <= |x.submitted|
    ensures x.retired == |x.submitted| ==> |y.delivered| == |x.submitted|
    ensures OneOfEach(y.delivered, x.submitted)
  {
    hide DataInFlight, AcksInFlight, Established;
  }

  lemma RetiredOneMore(x: Side, y: Side, x': Side, y': Side)
    requires Both(x, y) && Both(x', y')
    requires x.link.out.Some? && x'.submitted == x.submitted && x'.retired == x.retired + 1
    ensures x'.retired == |x'.submitted|
  {
    hide DataInFlight, AcksInFlight, Established;
  }

  /** Every number that x's host used has been delivered and acknowledged. */
  predicate AllAcross(x: Side, y: Side) {
    x.retired == |y.delivered| == |x.submitted| && OneOfEach(y.delivered, x.submitted)
  }

  /** The protocol never wedges. Whatever has happened and whatever was lost, from every reachable state there is
      a continuation, with nothing new submitted, after which the handshake is complete on both sides and every
      number used on either side has been delivered and acknowledged; what was on its way is lost in it, and then
      112 moves are enough. */
  lemma NeverStuck(s: System, moves: seq<Move>) returns (more: seq<Move>)
    requires Fresh(s.a) && Fresh(s.b) && Valid(moves, s)
    ensures Valid(more, Final(moves, s))
    ensures |more| <= |Final(moves, s).a.wire| + |Final(moves, s).b.wire| + 112
    ensures var t, u := Final(moves, s), Final(more, Final(moves, s));
            && Settled(LeA(u), LeB(u))
            && u.a.submitted == t.a.submitted && AllAcross(u.a, u.b)
            && u.b.submitted == t.b.submitted && AllAcross(u.b, u.a)
  {
    hide Both, Final, Valid, Settled;
    var t := Final(moves, s);
    ReachableBoth(s, moves, true);
    var drain := Drain(t);
    var t1 := Final(drain, t);
    var settle := Settle(t1);
    var t2 := Final(settle, t1);
    var retireA := RetirePending(t2, true);
    var t3 := Final(retireA, t2);
    var retireB := RetirePending(t3, false);
    var u := Final(retireB, t3);
    ValidConcat(t, drain, settle);
    ValidConcat(t, drain + settle, retireA);
    ValidConcat(t, drain + settle + retireA, retireB);
    more := drain + settle + retireA + retireB;
    BothSwaps(u.a, u.b);
    AllRetired(u.a, u.b);
    AllRetired(u.b, u.a);
  }
}
