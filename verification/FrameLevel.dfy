/** The frame level of the engine: what it sends next, and what a received frame does to it. The octet level
    (module EngineSpec) is built on these functions. */
module FrameLevel {
  import opened Crc
  import opened Framing

  datatype Option<+T> = None | Some(value: T)

  // ---------- link establishment ----------

  type LeState = n: nat | n <= 2
  const UNINITIALIZED: LeState := 0
  const INITIALIZED: LeState := 1
  const ACTIVE: LeState := 2

  /** The pending response: none, a SYNC RESP or a CONF RESP. */
  type LeResponse = n: nat | n <= 2
  const RESPOND_SYNC: LeResponse := 1
  const RESPOND_CONF: LeResponse := 2

  /** The link establishment frame to send next. */
  type LePacket = n: nat | n <= 4
  const SYNC: LePacket := 0
  const SYNC_RESP: LePacket := 1
  const CONF: LePacket := 2
  const CONF_RESP: LePacket := 3
  const NONE: LePacket := 4

  const LE_CHANNEL: Octet := 1

  const LE_OCTETS: seq<seq<Octet>> := [
    [0xDA, 0xDC, 0xED, 0xED],
    [0xAC, 0xAF, 0xEF, 0xEE],
    [0xAD, 0xEF, 0xAC, 0xED],
    [0xDE, 0xAD, 0xD0, 0xD0]
  ]

  /** The state machine of link establishment: a table indexed by state + 4 * response. */
  function NextLePacket(le: LeState, resp: LeResponse): LePacket {
    match le + resp * 4
    case 0 => SYNC
    case 1 => CONF
    case 4 => SYNC_RESP
    case 5 => SYNC_RESP
    case 9 => CONF_RESP
    case 10 => CONF_RESP
    case _ => NONE
  }

  /** Which link establishment payload the first four octets are; 5 if none of them. */
  function WhichLe(o: seq<Octet>): nat
    requires |o| >= 4
  {
    if o[..4] == LE_OCTETS[0] then SYNC
    else if o[..4] == LE_OCTETS[1] then SYNC_RESP
    else if o[..4] == LE_OCTETS[2] then CONF
    else if o[..4] == LE_OCTETS[3] then CONF_RESP
    else 5
  }

  lemma WhichLeOctets(k: LePacket)
    requires k < NONE
    ensures |LE_OCTETS[k]| == 4 && WhichLe(LE_OCTETS[k]) == k
  {
    assert LE_OCTETS[0][0] == 0xDA && LE_OCTETS[1][0] == 0xAC && LE_OCTETS[2][0] == 0xAD && LE_OCTETS[3][0] == 0xDE;
  }

  // ---------- the link ----------

  datatype Packet = Packet(channel: Octet, reliable: bool, payload: seq<Octet>)

  /** out is the packet the host wants sent; it stays until it is acknowledged (reliable) or sent (unreliable). */
  datatype Link = Link(le: LeState, resp: LeResponse, pkt: LePacket,
                       seqNo: Count, ackNo: Count, sendAck: bool, out: Option<Packet>)

  /** The flags that a poll reports. */
  datatype Activity = Activity(sent: bool, received: bool, reset: bool, ack: bool)
  {
    function Or(that: Activity): Activity {
      Activity(sent || that.sent, received || that.received, reset || that.reset, ack || that.ack)
    }
  }
  const QUIET: Activity := Activity(false, false, false, false)

  function Initialize(l: Link): Link {
    l.(le := UNINITIALIZED, pkt := SYNC, seqNo := 0, ackNo := 0)
  }

  function Submit(l: Link, p: Packet): Link {
    l.(out := Some(p))
  }

  // ---------- sending ----------

  function LeFrame(k: LePacket): Frame
    requires k < NONE
  {
    Frame(false, 0, 0, LE_CHANNEL, LE_OCTETS[k])
  }

  function AckFrame(l: Link): Frame {
    Frame(false, l.ackNo, 0, 0, [])
  }

  function DataFrame(l: Link, p: Packet): Frame {
    Frame(p.reliable, l.ackNo, l.seqNo, ChannelField(p.channel), p.payload)
  }

  datatype Choice = Choice(link: Link, frame: Option<Frame>)

  /** The frame the engine starts when nothing is being sent and no delay is running. */
  function NextFrame(l: Link): Choice {
    if l.pkt == NONE then
      if l.resp == RESPOND_CONF then Choice(l.(resp := 0), Some(LeFrame(CONF_RESP)))
      else if l.out.Some? then Choice(l.(sendAck := false), Some(DataFrame(l, l.out.value)))
      else if l.sendAck then Choice(l.(sendAck := false), Some(AckFrame(l)))
      else Choice(l, None)
    else
      Choice(l.(pkt := NextLePacket(l.le, l.resp), resp := 0), Some(LeFrame(l.pkt)))
  }

  /** The closing FRAME octet of any frame went out: a pending unreliable packet counts as sent. */
  function FinishFrame(l: Link): Link {
    if l.out.Some? && !l.out.value.reliable then l.(out := None) else l
  }

  // ---------- receiving ----------

  /** What the engine looks at in a frame that passed the integrity checks. le is the link establishment
      payload found in the receive buffer, meaningful on the link establishment channel only. */
  datatype Seen = Seen(reliable: bool, ackNo: Count, seqNo: Count, channel: Octet, hasPayload: bool, le: nat)

  function See(f: Frame): Seen {
    Seen(f.reliable, f.ackNo, f.seqNo, f.channel, f.payload != [], if |f.payload| >= 4 then WhichLe(f.payload) else 5)
  }

  /** retired: the pending reliable packet was acknowledged. delivered: the payload went to the host.
      reset: the peer had restarted and the engine reinitialized. cut: the frame being sent was abandoned.
      prompt: any running delay was cancelled. */
  datatype Effect = Effect(link: Link, activity: Activity,
                           retired: bool, delivered: bool, reset: bool, cut: bool, prompt: bool)

  predicate Acknowledges(l: Link, s: Seen) {
    s.ackNo != l.seqNo && l.out.Some? && l.out.value.reliable
  }

  function Retire(l: Link): Link {
    l.(out := None, seqNo := Increment(l.seqNo))
  }

  /** A link establishment frame, once any acknowledgement in it has been dealt with. */
  function AcceptLe(l: Link, le: nat, retired: bool): Effect {
    var act := QUIET.(sent := retired);
    if le == SYNC then
      if l.le < ACTIVE then Effect(l.(resp := RESPOND_SYNC), act, retired, false, false, false, true)
      else Effect(Initialize(l), QUIET.(reset := true), retired, false, true, true, true)
    else if le == SYNC_RESP then
      Effect(if l.le < INITIALIZED then l.(le := INITIALIZED) else l, act, retired, false, false, false, true)
    else if le == CONF then
      Effect(if l.le >= INITIALIZED then l.(resp := RESPOND_CONF) else l, act, retired, false, false, false, true)
    else if le == CONF_RESP && l.le < ACTIVE then
      Effect(l.(le := ACTIVE), act.(sent := true), retired, false, false, true, true)
    else
      Effect(l, act, retired, false, false, false, true)
  }

  /** Any other frame: payload counts in the active state only, and a reliable one only in sequence. */
  function AcceptData(l: Link, s: Seen, retired: bool): Effect {
    var act := QUIET.(sent := retired);
    if !s.hasPayload || l.le != ACTIVE then
      Effect(l, act, retired, false, false, false, retired)
    else if !s.reliable then
      Effect(l, act.(received := true), retired, true, false, false, retired)
    else if s.seqNo != l.ackNo then
      Effect(l.(sendAck := true), act, retired, false, false, false, retired)
    else
      Effect(l.(sendAck := true, ackNo := Increment(l.ackNo)), act.(received := true, ack := true),
             retired, true, false, false, retired)
  }

  function Accept(l: Link, s: Seen): Effect {
    var retired := Acknowledges(l, s);
    var l1 := if retired then Retire(l) else l;
    if s.channel == LE_CHANNEL then AcceptLe(l1, s.le, retired) else AcceptData(l1, s, retired)
  }

  /** A frame that fails an integrity check only asks for an acknowledgement to be sent. */
  function Reject(l: Link): Link {
    l.(sendAck := true)
  }

  /** The acknowledgement and sequence numbers are three-bit fields. */
  function Increment(c: Count): Count { c + 1 }

  // ---------- runs of one engine ----------

  datatype Action = Start | Finish | Accepted(seen: Seen) | Rejected | Submitted(packet: Packet) | Restarted

  function Act(l: Link, a: Action): Link {
    match a
    case Start => NextFrame(l).link
    case Finish => FinishFrame(l)
    case Accepted(s) => Accept(l, s).link
    case Rejected => Reject(l)
    case Submitted(p) => Submit(l, p)
    case Restarted => Initialize(l)
  }

  function Run(l: Link, actions: seq<Action>): Link
    decreases actions
  {
    if actions == [] then l else Run(Act(l, actions[0]), actions[1..])
  }

  lemma {:induction false} RunConcat(l: Link, a: seq<Action>, b: seq<Action>)
    ensures Run(l, a + b) == Run(Run(l, a), b)
    decreases a
  {
    hide Act;
    if a == [] {
      assert a + b == b;
    } else {
      RunConcat(Act(l, a[0]), a[1..], b);
      assert (a + b)[0] == a[0] && (a + b)[1..] == a[1..] + b;
    }
  }

  // ---------- the link establishment table ----------

  /** A pending CONF RESP and a packet that answers or follows one need an initialized link, and only an
      active link has nothing left to establish. */
  predicate LeConsistent(l: Link) {
    && (l.resp == RESPOND_CONF ==> l.le >= INITIALIZED)
    && (l.pkt in {CONF, CONF_RESP} ==> l.le >= INITIALIZED)
    && (l.pkt == NONE ==> l.le == ACTIVE && l.resp != RESPOND_SYNC)
  }

  predicate Resets(l: Link, a: Action) {
    a.Restarted? || (a.Accepted? && Accept(l, a.seen).reset)
  }

  lemma TableIsConsistent(le: LeState, resp: LeResponse)
    requires resp == RESPOND_CONF ==> le >= INITIALIZED
    ensures NextLePacket(le, resp) in {CONF, CONF_RESP} ==> le >= INITIALIZED
    ensures NextLePacket(le, resp) == NONE ==> le == ACTIVE
    ensures NextLePacket(le, resp) == SYNC ==> le == UNINITIALIZED
  {
  }

  /** Only a restart or a peer reset with a CONF RESP pending breaks the table, and it always does. */
  lemma LeConsistentStep(l: Link, a: Action)
    requires LeConsistent(l)
    ensures LeConsistent(Act(l, a)) <==> !(l.resp == RESPOND_CONF && Resets(l, a))
  {
    hide NextLePacket, Increment;
    TableIsConsistent(l.le, l.resp);
  }

}
