/** The host side: the command queue, and the loop that polls the engine and keeps one command outstanding. */
module Host {
  import opened Crc
  import opened FrameLevel
  import opened EngineSpec
  import opened Engine
  import opened Framing
  import FrameReception
  import Sessions
  import TwoEngines
  import Slip
  import Transmission

  // ---------- the queue, as a value ----------

  /** length octets of data are to be sent on the channel. */
  datatype Op = Op(data: seq<Octet>, length: nat, channel: Octet)

  /** What the copy into a buffer of this size needs. */
  predicate Fits(op: Op, size: nat) {
    op.length <= |op.data| && op.length <= size
  }

  /** The packet that the engine is given for an operation. */
  function PacketFor(op: Op): Packet
    requires op.length <= |op.data|
  {
    Packet(op.channel, true, op.data[..op.length])
  }

  const SLOTS: nat := 64

  /** A FIFO, and how many operations have been queued since it was last empty. */
  datatype Queue = Queue(ops: seq<Op>, used: nat)

  const EMPTY: Queue := Queue([], 0)

  function Enqueued(q: Queue, op: Op): Queue {
    Queue(q.ops + [op], q.used + 1)
  }

  function Dequeued(q: Queue): Queue {
    if q.ops == [] then q else Queue(q.ops[1..], if |q.ops| == 1 then 0 else q.used)
  }

  datatype QueueCall = Put(op: Op) | Take

  function QueueStep(q: Queue, c: QueueCall): Queue {
    match c
    case Put(op) => Enqueued(q, op)
    case Take => Dequeued(q)
  }

  function QueueRun(q: Queue, calls: seq<QueueCall>): Queue
    decreases calls
  {
    if calls == [] then q else QueueRun(QueueStep(q, calls[0]), calls[1..])
  }

  /** The operations put and taken by a run, in order. */
  function Put(calls: seq<QueueCall>): seq<Op> {
    if calls == [] then [] else (if calls[0].Put? then [calls[0].op] else []) + Put(calls[1..])
  }

  function Taken(q: Queue, calls: seq<QueueCall>): seq<Op>
    decreases calls
  {
    if calls == [] then []
    else (if calls[0].Take? && q.ops != [] then [q.ops[0]] else []) + Taken(QueueStep(q, calls[0]), calls[1..])
  }

  /** First in, first out: what has been taken and what is left is what was there and what was put, in order. */
  lemma {:induction false} QueueIsFifo(q: Queue, calls: seq<QueueCall>)
    ensures Taken(q, calls) + QueueRun(q, calls).ops == q.ops + Put(calls)
    decreases calls
  {
    if calls == [] {
      assert q.ops + [] == [] + q.ops;
    } else {
      var q1 := QueueStep(q, calls[0]);
      QueueIsFifo(q1, calls[1..]);
      var t, r, p := Taken(q1, calls[1..]), QueueRun(q1, calls[1..]).ops, Put(calls[1..]);
      if calls[0].Put? {
        assert q1.ops + p == q.ops + ([calls[0].op] + p);
        assert [] + t == t;
      } else if q.ops == [] {
        assert [] + t == t && [] + p == p;
      } else {
        assert [] + p == p;
        assert ([q.ops[0]] + t) + r == [q.ops[0]] + (q1.ops + p) == q.ops + p;
      }
    }
  }

  /** An empty queue has all its slots, after every run. */
  lemma {:induction false} EmptyIsUnused(q: Queue, calls: seq<QueueCall>)
    requires q.ops == [] ==> q.used == 0
    ensures QueueRun(q, calls).ops == [] ==> QueueRun(q, calls).used == 0
    decreases calls
  {
    if calls != [] {
      EmptyIsUnused(QueueStep(q, calls[0]), calls[1..]);
    }
  }

  /** And a queue that has not been empty since has used one slot for every operation put, taken or not. */
  lemma {:induction false} UsesSinceEmpty(q: Queue, calls: seq<QueueCall>)
    requires forall i :: 0 < i <= |calls| ==> QueueRun(q, calls[..i]).ops != []
    ensures QueueRun(q, calls).used == q.used + |Put(calls)|
    decreases calls
  {
    if calls != [] {
      var q1 := QueueStep(q, calls[0]);
      assert calls[..1][1..] == [] && calls[..1][0] == calls[0];
      assert QueueRun(q, calls[..1]) == q1;
      forall i | 0 < i <= |calls[1..]| ensures QueueRun(q1, calls[1..][..i]).ops != [] {
        assert calls[..i + 1][0] == calls[0] && calls[..i + 1][1..] == calls[1..][..i];
        assert QueueRun(q, calls[..i + 1]) == QueueRun(q1, calls[1..][..i]);
      }
      UsesSinceEmpty(q1, calls[1..]);
    }
  }

  /** Keeps one operation in the queue while putting and taking n more. */
  function NeverEmpty(op: Op, n: nat): seq<QueueCall> {
    if n == 0 then [] else [QueueCall.Put(op), Take] + NeverEmpty(op, n - 1)
  }

  lemma {:induction false} NeverEmptyUses(q: Queue, op: Op, n: nat)
    requires |q.ops| == 1
    ensures var r := QueueRun(q, NeverEmpty(op, n));
            |r.ops| == 1 && r.used == q.used + n
    decreases n
  {
    if n != 0 {
      var calls := NeverEmpty(op, n);
      var q1 := QueueStep(q, calls[0]);
      var q2 := QueueStep(q1, calls[1]);
      assert calls[1..][0] == calls[1] && calls[1..][1..] == NeverEmpty(op, n - 1);
      assert QueueRun(q, calls) == QueueRun(q2, NeverEmpty(op, n - 1));
      NeverEmptyUses(q2, op, n - 1);
    }
  }

  /** The slots run out by use, not by occupancy: a queue that never holds more than two operations, and is
      never empty, has no slot left after 64 of them. */
  lemma SlotsRunOut(op: Op)
    ensures var calls := [QueueCall.Put(op)] + NeverEmpty(op, 63);
            QueueRun(EMPTY, calls).used == SLOTS && |QueueRun(EMPTY, calls).ops| == 1
  {
    var calls := [QueueCall.Put(op)] + NeverEmpty(op, 63);
    var q := QueueStep(EMPTY, calls[0]);
    assert calls[1..] == NeverEmpty(op, 63);
    NeverEmptyUses(q, op, 63);
  }

  // ---------- the queue, in its arrays ----------

  function Zip(data: seq<seq<Octet>>, length: seq<nat>, channel: seq<Octet>): (ops: seq<Op>)
    requires |data| == |length| == |channel|
    ensures |ops| == |data| && forall i :: 0 <= i < |ops| ==> ops[i] == Op(data[i], length[i], channel[i])
  {
    seq(|data|, i requires 0 <= i < |data| => Op(data[i], length[i], channel[i]))
  }

  class HciQueue {
    var queueTail: nat
    var queueHead: nat
    const dataQueue: array<seq<Octet>>
    const lengthQueue: array<nat>
    const channelQueue: array<Octet>

    ghost predicate Valid()
      reads `queueTail, `queueHead
    {
      && dataQueue.Length == SLOTS && lengthQueue.Length == SLOTS && channelQueue.Length == SLOTS
      && queueHead <= queueTail <= SLOTS
      && (queueHead == queueTail ==> queueTail == 0)
      && dataQueue as object != lengthQueue as object && lengthQueue as object != channelQueue as object
      && dataQueue as object != channelQueue as object
    }

    /** The slots in use, and queueTail as the number of operations queued since the queue was last empty. */
    ghost function Contents(): Queue
      requires Valid()
      reads this, dataQueue, lengthQueue, channelQueue
    {
      Queue(Zip(dataQueue[queueHead..queueTail], lengthQueue[queueHead..queueTail], channelQueue[queueHead..queueTail]),
            queueTail)
    }

    constructor ()
      ensures Valid() && Contents() == EMPTY
    {
      queueTail, queueHead := 0, 0;
      dataQueue := new seq<Octet>[SLOTS](_ => []);
      lengthQueue := new nat[SLOTS](_ => 0);
      channelQueue := new Octet[SLOTS](_ => 0);
    }

    /** queue_hci_op: possible as long as fewer than 64 operations were queued since the queue was last empty. */
    method Enqueue(value: seq<Octet>, length: nat, channel: Octet)
      requires Valid() && Contents().used < SLOTS
      modifies this, dataQueue, lengthQueue, channelQueue
      ensures Valid() && Contents() == Enqueued(old(Contents()), Op(value, length, channel))
    {
      dataQueue[queueTail] := value;
      lengthQueue[queueTail] := length;
      channelQueue[queueTail] := channel;
      queueTail := queueTail + 1;
      assert dataQueue[queueHead..queueTail] == old(dataQueue[queueHead..queueTail]) + [value];
      assert lengthQueue[queueHead..queueTail] == old(lengthQueue[queueHead..queueTail]) + [length];
      assert channelQueue[queueHead..queueTail] == old(channelQueue[queueHead..queueTail]) + [channel];
    }

    /** The oldest operation, if there is one, gives its slot back. */
    method TakeHead() returns (op: Option<Op>)
      requires Valid()
      modifies `queueTail, `queueHead
      ensures Valid() && Contents() == Dequeued(old(Contents()))
      ensures op == (if old(Contents()).ops == [] then None else Some(old(Contents()).ops[0]))
    {
      op := None;
      if queueHead < queueTail {
        op := Some(Op(dataQueue[queueHead], lengthQueue[queueHead], channelQueue[queueHead]));
        queueHead := queueHead + 1;
        if queueHead == queueTail {
          queueHead, queueTail := 0, 0;
        }
      }
    }

    /** dequeueIntoSendPacket: the oldest operation, if there is one, is copied into the send buffer and, as a reliable
        packet, replaces whatever the engine has to send. */
    method Dequeue(sendBuffer: array<Octet>, engine: MicroBcsp) returns (taken: bool)
      requires Valid() && engine.Valid() && Apart(sendBuffer, engine)
      requires Contents().ops != [] ==> Fits(Contents().ops[0], sendBuffer.Length)
      modifies `queueTail, `queueHead, sendBuffer, engine`link, engine`sender
      ensures Valid() && Contents() == Dequeued(old(Contents()))
      ensures taken <==> old(Contents()).ops != []
      ensures engine.Valid()
      ensures engine.Abs() == (if taken then SendPacket(old(engine.Abs()), PacketFor(old(Contents()).ops[0]))
                               else old(engine.Abs()))
      ensures taken ==> sendBuffer[..old(Contents()).ops[0].length] == PacketFor(old(Contents()).ops[0]).payload
    {
      hide Contents, Valid, Dequeued, MicroBcsp.Readable, MicroBcsp.AbsTx, MicroBcsp.AbsRx, ValidState;
      var op := TakeHead();
      taken := op.Some?;
      if taken {
        var data, length := op.value.data, op.value.length;
        forall k | 0 <= k < length {
          sendBuffer[k] := data[k];
        }
        assert sendBuffer[..length] == data[..length];
        engine.SubmitPacket(Packet(op.value.channel, true, sendBuffer[..length]));
      }
    }

    /** The buffer is none of the queue's and none of the engine's. */
    ghost predicate Apart(buffer: array<Octet>, engine: MicroBcsp)
      reads engine`receivePacket
    {
      && Foreign(buffer) && !engine.Static(buffer)
      && Foreign(engine.receiveHeader) && Foreign(engine.sendHeader)
      && Foreign(engine.sendAckHeader) && Foreign(engine.sendCrc)
      && (engine.receivePacket != null ==>
            Foreign(engine.receivePacket.payload) && engine.receivePacket.payload != buffer)
    }

    /** Not one of the queue's arrays. */
    ghost predicate Foreign(a: array<Octet>) {
      a != channelQueue && a as object != dataQueue as object && a as object != lengthQueue as object
    }

    /** isQueueEmpty */
    method IsEmpty() returns (isIt: bool)
      requires Valid()
      ensures isIt <==> Contents().ops == []
    {
      isIt := queueHead == queueTail;
    }

    /** queueSize */
    method Size() returns (size: nat)
      requires Valid()
      ensures size == |Contents().ops|
    {
      size := queueTail - queueHead;
    }
  }

  // ---------- the command window ----------

  /** fetch: the next operation may be sent. expected: a response to the last one is awaited. timeout: the delayed
      polls since something last happened. */
  datatype Window = Window(fetch: bool, expected: bool, timeout: nat)

  const OPEN: Window := Window(true, false, 0)
  const TIMEOUT: nat := 10000

  /** What one round of the loop sees: the activity and the delay its poll reports, and whether an operation is
      waiting in the queue. */
  datatype Round = Round(sent: bool, received: bool, delayed: bool, waiting: bool)

  /** The window after a round, and whether the round sent an operation or timed out. */
  datatype Rounded = Rounded(window: Window, dequeues: bool, timesOut: bool)

  /** What the activity of the poll does to the window. */
  function Noted(w: Window, sent: bool, received: bool): Window {
    if received then Window(true, false, 0)
    else if sent then Window(w.fetch || !w.expected, w.expected, 0)
    else w
  }

  /** What a delay does to it, and whether that is a timeout. */
  function Timed(w: Window, delayed: bool): (Window, bool) {
    if !delayed || w.fetch then (w, false)
    else if w.timeout + 1 >= TIMEOUT then (Window(true, true, 0), true)
    else (w.(timeout := w.timeout + 1), false)
  }

  function NextRound(w: Window, r: Round): Rounded {
    var w1 := Noted(w, r.sent, r.received);
    var dequeues := w1.fetch && r.waiting;
    var (w2, timesOut) := Timed(if dequeues then w1.(fetch := false, expected := true) else w1, r.delayed);
    Rounded(w2, dequeues, timesOut)
  }

  function After(rounds: seq<Round>): Window {
    if rounds == [] then OPEN
    else NextRound(After(rounds[..|rounds| - 1]), rounds[|rounds| - 1]).window
  }

  function Result(rounds: seq<Round>, i: nat): Rounded
    requires i < |rounds|
  {
    NextRound(After(rounds[..i]), rounds[i])
  }

  predicate Consistent(w: Window) {
    && (!w.fetch ==> w.expected)
    && (w.fetch ==> w.timeout == 0)
    && w.timeout < TIMEOUT
  }

  /** A closed window always awaits a response, so that a packet has been sent never opens it; an open window
      counts no time. */
  lemma {:induction false} WindowInvariant(rounds: seq<Round>)
    ensures Consistent(After(rounds))
    ensures Noted(After(rounds), true, false).fetch == After(rounds).fetch
  {
    if rounds != [] {
      WindowInvariant(rounds[..|rounds| - 1]);
    }
  }

  lemma AfterNext(rounds: seq<Round>, i: nat)
    requires i < |rounds|
    ensures After(rounds[..i + 1]) == Result(rounds, i).window
  {
    assert rounds[..i + 1][..i] == rounds[..i];
  }

  /** Rounds i .. j - 1, the first one sending an operation: without a packet received after it or a timeout, the
      window is closed. */
  lemma {:induction false} StaysClosed(rounds: seq<Round>, i: nat, j: nat)
    requires i < j <= |rounds| && Result(rounds, i).dequeues
    requires forall k :: i < k < j ==> !rounds[k].received
    requires forall k :: i <= k < j ==> !Result(rounds, k).timesOut
    ensures !After(rounds[..j]).fetch
    decreases j
  {
    WindowInvariant(rounds[..j - 1]);
    AfterNext(rounds, j - 1);
    if j - 1 == i {
      WindowInvariant(rounds[..i]);
    } else {
      StaysClosed(rounds, i, j - 1);
    }
  }

  /** One operation at a time: between two rounds that send an operation a packet is received, or the wait for it
      times out. */
  lemma OneCommandWindow(rounds: seq<Round>, i: nat, j: nat)
    requires i < j < |rounds| && Result(rounds, i).dequeues && Result(rounds, j).dequeues
    ensures (exists k :: i < k <= j && rounds[k].received) || (exists k :: i <= k < j && Result(rounds, k).timesOut)
  {
    if (forall k :: i < k <= j ==> !rounds[k].received) && (forall k :: i <= k < j ==> !Result(rounds, k).timesOut) {
      StaysClosed(rounds, i, j);
      WindowInvariant(rounds[..j]);
    }
  }

  /** A packet was received after round i and up to round j, or the wait for it timed out before round j. */
  ghost predicate WindowOpened(rounds: seq<Round>, i: nat, j: nat)
    requires i < j < |rounds|
  {
    (exists k :: i < k <= j && rounds[k].received) || (exists k :: i <= k < j && Result(rounds, k).timesOut)
  }

  /** An open window stays open until an operation is sent. */
  lemma {:induction false} StaysOpen(rounds: seq<Round>, k: nat, j: nat)
    requires k < j <= |rounds| && After(rounds[..k + 1]).fetch
    requires forall m :: k < m < j ==> !Result(rounds, m).dequeues
    ensures After(rounds[..j]).fetch
    decreases j
  {
    hide After;
    if j > k + 1 {
      StaysOpen(rounds, k, j - 1);
      AfterNext(rounds, j - 1);
    }
  }

  /** The next operation after that of round i is sent in the first round in which one is waiting and a packet has been
      received since, or the wait has timed out: exactly then, and whether or not the first one was reported sent. */
  lemma NextOperation(rounds: seq<Round>, i: nat, j: nat)
    requires i < j < |rounds| && Result(rounds, i).dequeues
    requires forall k :: i < k < j ==> !Result(rounds, k).dequeues
    ensures Result(rounds, j).dequeues <==> rounds[j].waiting && WindowOpened(rounds, i, j)
  {
    hide After;
    WindowInvariant(rounds[..j]);
    if Result(rounds, j).dequeues {
      OneCommandWindow(rounds, i, j);
    }
    if k :| i < k < j && rounds[k].received {
      AfterNext(rounds, k);
      WindowInvariant(rounds[..k]);
      StaysOpen(rounds, k, j);
    } else if k :| i <= k < j && Result(rounds, k).timesOut {
      AfterNext(rounds, k);
      StaysOpen(rounds, k, j);
    }
  }

  /** Round i sent the last operation before round j, and up to round j, that round included, no poll reported it
      sent. */
  predicate Outstanding(rounds: seq<Round>, i: nat, j: nat)
    requires i < j < |rounds|
  {
    && Result(rounds, i).dequeues
    && (forall k :: i < k < j ==> !Result(rounds, k).dequeues)
    && (forall k :: i < k <= j ==> !rounds[k].sent)
  }

  /** Round j submits an operation although the one before has not been reported sent. */
  ghost predicate Replaces(rounds: seq<Round>, j: nat)
    requires j < |rounds|
  {
    Result(rounds, j).dequeues && exists i: nat :: i < j && Outstanding(rounds, i, j)
  }

  /** The engine asks not to be given a packet before it has reported the previous one as sent. Over every run of the
      loop, a round breaks this if and only if an operation is outstanding, another one is waiting, and since the
      first one was sent a packet was received or the wait timed out: the window ignores what has been sent. */
  lemma WindowIgnoresSent(rounds: seq<Round>, j: nat)
    requires j < |rounds|
    ensures Replaces(rounds, j) <==>
            rounds[j].waiting && exists i: nat :: i < j && Outstanding(rounds, i, j) && WindowOpened(rounds, i, j)
  {
    hide Result, WindowOpened;
    if i: nat :| i < j && Outstanding(rounds, i, j) {
      NextOperation(rounds, i, j);
      forall i' | 0 <= i' < j && Outstanding(rounds, i', j) ensures i' == i {
      }
    }
  }

  /** In terms of the window before the round: it was open, or this round receives a packet. */
  lemma ReplacesNow(rounds: seq<Round>, j: nat)
    requires j < |rounds|
    ensures Replaces(rounds, j) <==>
            && (exists i: nat :: i < j && Outstanding(rounds, i, j))
            && rounds[j].waiting && (rounds[j].received || After(rounds[..j]).fetch)
  {
    hide After;
  }

  /** The delayed polls among rounds i .. j - 1. */
  function Delayed(rounds: seq<Round>, i: nat, j: nat): nat
    requires i <= j <= |rounds|
    decreases j
  {
    if i == j then 0 else Delayed(rounds, i, j - 1) + (if rounds[j - 1].delayed then 1 else 0)
  }

  /** Nothing was sent, received or taken from the queue in rounds i + 1 .. j - 1. */
  predicate NothingHappens(rounds: seq<Round>, i: nat, j: nat)
    requires i <= j <= |rounds|
  {
    forall k :: i < k < j ==> !rounds[k].sent && !rounds[k].received && !Result(rounds, k).dequeues
  }

  /** The timeout counts the delayed polls since a round in which something happened. */
  lemma {:induction false} TimeoutCounts(rounds: seq<Round>, j: nat) returns (i: nat)
    requires j <= |rounds| && After(rounds[..j]).timeout > 0
    ensures i < j && NothingHappens(rounds, i, j) && Delayed(rounds, i, j) == After(rounds[..j]).timeout
    decreases j
  {
    hide NextRound, After;
    assert j > 0 by { NothingCountedYet(); assert |rounds[..j]| == j; }
    AfterNext(rounds, j - 1);
    WindowInvariant(rounds[..j - 1]);
    var r, before := rounds[j - 1], After(rounds[..j - 1]);
    TimeoutSteps(before, r);
    if r.sent || r.received || Result(rounds, j - 1).dequeues || before.timeout == 0 {
      i := j - 1;
      assert Delayed(rounds, i, i) == 0;
    } else {
      i := TimeoutCounts(rounds, j - 1);
    }
  }

  lemma NothingCountedYet()
    ensures After([]).timeout == 0
  {
  }

  lemma TimeoutSteps(w: Window, r: Round)
    requires Consistent(w)
    ensures var n := NextRound(w, r);
            var t := if r.sent || r.received || n.dequeues || w.timeout == 0 then 0 else w.timeout;
            n.window.timeout > 0 ==> n.window.timeout == t + (if r.delayed then 1 else 0)
  {
  }

  /** A timeout comes with at least 10000 delayed polls, the last being its own, with nothing sent, received or
      taken from the queue after the first of these rounds. */
  lemma TimeoutIsDeserved(rounds: seq<Round>, j: nat) returns (i: nat)
    requires j < |rounds| && Result(rounds, j).timesOut
    ensures i <= j && NothingHappens(rounds, i, j + 1) && Delayed(rounds, i, j + 1) == TIMEOUT
  {
    WindowInvariant(rounds[..j]);
    i := TimeoutCounts(rounds, j);
  }

  /** Something happened in round i, and the window was closed after it. */
  predicate ClosedAt(rounds: seq<Round>, i: nat)
    requires i < |rounds|
  {
    Result(rounds, i).dequeues || (rounds[i].sent && !After(rounds[..i + 1]).fetch)
  }

  /** Until something happens again or the wait times out, the window stays closed and counts every delayed poll. */
  lemma {:induction false} DelaysAreCounted(rounds: seq<Round>, i: nat, j: nat)
    requires i < j <= |rounds| && ClosedAt(rounds, i) && NothingHappens(rounds, i, j)
    requires forall k :: i <= k < j ==> !Result(rounds, k).timesOut
    ensures !After(rounds[..j]).fetch && After(rounds[..j]).timeout == Delayed(rounds, i, j)
    decreases j
  {
    hide After;
    AfterNext(rounds, j - 1);
    WindowInvariant(rounds[..j - 1]);
    if j == i + 1 {
      assert Delayed(rounds, i, i) == 0;
    } else {
      DelaysAreCounted(rounds, i, j - 1);
    }
  }

  /** A timeout comes, and not before it is due: after a round in which something happened and which left the window
      closed, as long as nothing is sent, received or taken from the queue, the wait times out in the very round whose
      poll is the 10000th to be delayed. */
  lemma TimeoutComes(rounds: seq<Round>, i: nat, j: nat)
    requires i <= j < |rounds| && ClosedAt(rounds, i) && NothingHappens(rounds, i, j + 1)
    requires forall k :: i <= k < j ==> !Result(rounds, k).timesOut
    ensures Result(rounds, j).timesOut <==> rounds[j].delayed && Delayed(rounds, i, j + 1) == 10000
  {
    hide After;
    WindowInvariant(rounds[..j]);
    AfterNext(rounds, j);
    if i < j {
      DelaysAreCounted(rounds, i, j);
    } else {
      assert Delayed(rounds, i, i) == 0;
    }
  }

  /** And it opens the window. */
  lemma TimeoutOpens(rounds: seq<Round>, j: nat)
    requires j < |rounds| && Result(rounds, j).timesOut
    ensures After(rounds[..j + 1]).fetch
  {
    AfterNext(rounds, j);
  }

  /** A response is expected if and only if, since the last packet received, an operation was sent or a wait timed out;
      the operation may have been sent in the very round that received the packet. */
  lemma {:induction false} ResponseExpected(rounds: seq<Round>)
    ensures After(rounds).expected <==>
            exists i :: 0 <= i < |rounds| && (Result(rounds, i).dequeues || Result(rounds, i).timesOut) &&
                        forall k :: i < k < |rounds| ==> !rounds[k].received
  {
    hide After;
    var n := |rounds| - 1;
    if n < 0 {
      NothingExpected();
    } else {
      var front := rounds[..n];
      ResponseExpected(front);
      assert rounds[..n + 1] == rounds;
      AfterNext(rounds, n);
      ExpectedSteps(After(front), rounds[n]);
      assert forall i :: 0 <= i < n ==> rounds[..i] == front[..i] && rounds[i] == front[i];
      if After(rounds).expected && !(Result(rounds, n).dequeues || Result(rounds, n).timesOut) {
        var i :| 0 <= i < n && (Result(front, i).dequeues || Result(front, i).timesOut) &&
                 forall k :: i < k < n ==> !front[k].received;
        assert Result(rounds, i).dequeues || Result(rounds, i).timesOut;
      }
      if i :| 0 <= i < n && (Result(rounds, i).dequeues || Result(rounds, i).timesOut) &&
              forall k :: i < k <= n ==> !rounds[k].received {
        assert Result(front, i).dequeues || Result(front, i).timesOut;
      }
    }
  }

  lemma NothingExpected()
    ensures !After([]).expected
  {
  }

  lemma ExpectedSteps(w: Window, r: Round)
    ensures var n := NextRound(w, r);
            n.window.expected <==> n.dequeues || n.timesOut || (w.expected && !r.received)
  {
  }

  // ---------- the loop ----------

  const EVENT_CHANNEL: Octet := 5
  const ACL_CHANNEL: Octet := 6
  const HARDWARE_ERROR: Octet := 0x10

  /** What the loop passes up to the bridge. */
  datatype Forward = HciEvent(payload: seq<Octet>) | HciData(payload: seq<Octet>) | PlaygroundTimeout

  /** Events other than hardware errors, and data; packets of any other channel are dropped. */
  function Forwarded(p: Packet): seq<Forward> {
    if p.channel == EVENT_CHANNEL then
      if [HARDWARE_ERROR] <= p.payload then [] else [HciEvent(p.payload)]
    else if p.channel == ACL_CHANNEL then [HciData(p.payload)]
    else []
  }

  // ---------- what goes up ----------

  /** What a round of the loop has for the bridge: the packet its poll handed over, and whether the wait timed out. */
  datatype Turn = Turn(packet: Option<Packet>, timesOut: bool)

  function UpIn(t: Turn): seq<Forward> {
    (if t.packet.Some? then Forwarded(t.packet.value) else []) + (if t.timesOut then [PlaygroundTimeout] else [])
  }

  function Ups(turns: seq<Turn>): seq<Forward> {
    if turns == [] then [] else UpIn(turns[0]) + Ups(turns[1..])
  }

  /** The payloads passed up as events, and those passed up as data, in order. */
  function EventsIn(up: seq<Forward>): seq<seq<Octet>> {
    if up == [] then [] else (if up[0].HciEvent? then [up[0].payload] else []) + EventsIn(up[1..])
  }

  function DataIn(up: seq<Forward>): seq<seq<Octet>> {
    if up == [] then [] else (if up[0].HciData? then [up[0].payload] else []) + DataIn(up[1..])
  }

  function TimeoutsIn(up: seq<Forward>): nat {
    if up == [] then 0 else (if up[0].PlaygroundTimeout? then 1 else 0) + TimeoutsIn(up[1..])
  }

  /** The payloads delivered on channel 5 that do not begin with 0x10, the code of a hardware error. */
  function EventsDelivered(turns: seq<Turn>): seq<seq<Octet>> {
    if turns == [] then []
    else
      var rest := EventsDelivered(turns[1..]);
      match turns[0].packet
      case None => rest
      case Some(p) =>
        if p.channel == 5 && (p.payload == [] || p.payload[0] != 0x10) then [p.payload] + rest else rest
  }

  /** The payloads delivered on channel 6. */
  function DataDelivered(turns: seq<Turn>): seq<seq<Octet>> {
    if turns == [] then []
    else
      var rest := DataDelivered(turns[1..]);
      match turns[0].packet
      case None => rest
      case Some(p) => if p.channel == 6 then [p.payload] + rest else rest
  }

  function TimeoutsOf(turns: seq<Turn>): nat {
    if turns == [] then 0 else (if turns[0].timesOut then 1 else 0) + TimeoutsOf(turns[1..])
  }

  lemma {:induction false} EventsConcat(a: seq<Forward>, b: seq<Forward>)
    ensures EventsIn(a + b) == EventsIn(a) + EventsIn(b)
    decreases a
  {
    if a == [] {
      assert a + b == b;
    } else {
      assert (a + b)[0] == a[0] && (a + b)[1..] == a[1..] + b;
      EventsConcat(a[1..], b);
    }
  }

  lemma {:induction false} DataConcat(a: seq<Forward>, b: seq<Forward>)
    ensures DataIn(a + b) == DataIn(a) + DataIn(b)
    decreases a
  {
    if a == [] {
      assert a + b == b;
    } else {
      assert (a + b)[0] == a[0] && (a + b)[1..] == a[1..] + b;
      DataConcat(a[1..], b);
    }
  }

  lemma {:induction false} TimeoutsConcat(a: seq<Forward>, b: seq<Forward>)
    ensures TimeoutsIn(a + b) == TimeoutsIn(a) + TimeoutsIn(b)
    decreases a
  {
    if a == [] {
      assert a + b == b;
    } else {
      assert (a + b)[0] == a[0] && (a + b)[1..] == a[1..] + b;
      TimeoutsConcat(a[1..], b);
    }
  }

  lemma UpsConcat(a: seq<Forward>, b: seq<Forward>)
    ensures EventsIn(a + b) == EventsIn(a) + EventsIn(b) && DataIn(a + b) == DataIn(a) + DataIn(b)
    ensures TimeoutsIn(a + b) == TimeoutsIn(a) + TimeoutsIn(b)
  {
    EventsConcat(a, b);
    DataConcat(a, b);
    TimeoutsConcat(a, b);
  }

  lemma OneTurn(t: Turn)
    ensures EventsIn(UpIn(t)) == EventsDelivered([t]) && DataIn(UpIn(t)) == DataDelivered([t])
    ensures TimeoutsIn(UpIn(t)) == TimeoutsOf([t]) && |UpIn(t)| <= 2
  {
    assert [t][1..] == [];
    var p := if t.packet.Some? then Forwarded(t.packet.value) else [];
    var o: seq<Forward> := if t.timesOut then [PlaygroundTimeout] else [];
    UpsConcat(p, o);
    if p != [] {
      assert p[1..] == [];
    }
    if o != [] {
      assert o[1..] == [];
    }
  }

  lemma DeliveredFirst(turns: seq<Turn>)
    requires turns != []
    ensures EventsDelivered(turns) == EventsDelivered([turns[0]]) + EventsDelivered(turns[1..])
    ensures DataDelivered(turns) == DataDelivered([turns[0]]) + DataDelivered(turns[1..])
    ensures TimeoutsOf(turns) == TimeoutsOf([turns[0]]) + TimeoutsOf(turns[1..])
  {
    assert [turns[0]][1..] == [];
  }

  /** Over every run of rounds: the payloads passed up as events are, in order, those delivered on channel 5 but for
      hardware errors, those passed up as data those delivered on channel 6, and nothing else goes up but one report
      for every timeout. */
  lemma {:induction false} UpsAreDelivered(turns: seq<Turn>)
    ensures EventsIn(Ups(turns)) == EventsDelivered(turns) && DataIn(Ups(turns)) == DataDelivered(turns)
    ensures TimeoutsIn(Ups(turns)) == TimeoutsOf(turns)
    decreases turns
  {
    hide UpIn, EventsIn, DataIn, TimeoutsIn, EventsDelivered, DataDelivered, TimeoutsOf;
    if turns == [] {
      NothingUp();
    } else {
      OneTurn(turns[0]);
      UpsAreDelivered(turns[1..]);
      UpsConcat(UpIn(turns[0]), Ups(turns[1..]));
      DeliveredFirst(turns);
    }
  }

  lemma NothingUp()
    ensures EventsIn([]) == EventsDelivered([]) == DataIn([]) == DataDelivered([]) == []
    ensures TimeoutsIn([]) == TimeoutsOf([]) == 0
  {
  }

  // ---------- the loop and its engine ----------

  /** What the host hands to the engine is what the delivery theorems ask for, if the operation is for a channel other
      than that of link establishment and has from 1 to 512 octets: a reliable packet with the first octets of the
      data. */
  lemma OperationsMaySubmit(op: Op)
    requires 1 <= op.length <= 512 && op.length <= |op.data| && ChannelField(op.channel) != LE_CHANNEL
    ensures TwoEngines.MaySubmit(PacketFor(op))
    ensures var p := PacketFor(op);
            p.reliable && p.channel == op.channel && |p.payload| == op.length && p.payload <= op.data
  {
  }

  const ROOM: nat := 512

  /** Once armed again, the engine has room for frames with up to 510 octets of payload, and for no longer one. */
  lemma RoomWhenArmed(p: Polled, op: Option<Op>, room: seq<Octet>, f: Frame)
    requires p.activity.received && (op.Some? ==> op.value.length <= |op.value.data|)
    ensures FrameReception.Room(EngineAfter(p, op, room).rx, f) <==> |f.payload| <= 510
  {
  }

  /** The engine after a round: after its poll, armed again if a packet was received, and with the operation taken from
      the queue to be sent. room is what the receive buffer holds. */
  function EngineAfter(p: Polled, op: Option<Op>, room: seq<Octet>): State
    requires op.Some? ==> op.value.length <= |op.value.data|
  {
    var s := if p.activity.received then ReceivePacket(p.state, Buffer(ROOM, room)) else p.state;
    if op.Some? then SendPacket(s, PacketFor(op.value)) else s
  }

  /** What a round does to the engine is a session: a poll, and after it the host's calls. */
  lemma RoundIsSession(s: State, input: seq<Slip.Reading>, op: Option<Op>, room: seq<Octet>)
    requires ValidState(s) && |room| == ROOM && (op.Some? ==> op.value.length <= |op.value.data|)
    ensures var p := Poll(s, input);
            var calls := CallsOf(p, op, room);
            Sessions.Play(Transmission.Line(s, input), calls).line ==
              Transmission.Line(EngineAfter(p, op, room), p.rest)
  {
    hide Poll, ValidState, Sessions.Play;
    var p := Poll(s, input);
    var l := Transmission.Line(s, input);
    var arm := if p.activity.received then [Sessions.Receives(Buffer(ROOM, room))] else [];
    var send := if op.Some? then [Sessions.Sends(PacketFor(op.value))] else [];
    assert l.pending + [] == input;
    Sessions.PlayFirst(l, Sessions.Polls([]), arm + send);
    var l1 := Sessions.Do(l, Sessions.Polls([]));
    assert l1 == Transmission.Line(p.state, p.rest);
    var l2 := l1.(state := if p.activity.received then ReceivePacket(p.state, Buffer(ROOM, room)) else p.state);
    if p.activity.received {
      Sessions.PlayFirst(l1, Sessions.Receives(Buffer(ROOM, room)), send);
    } else {
      assert arm + send == send;
    }
    if op.Some? {
      assert send == [Sessions.Sends(PacketFor(op.value))] + [];
      Sessions.PlayFirst(l2, Sessions.Sends(PacketFor(op.value)), []);
      Sessions.PlayNothing(Sessions.Do(l2, Sessions.Sends(PacketFor(op.value))));
    } else {
      Sessions.PlayNothing(l2);
    }
  }

  /** The calls of a round, after the octets that have arrived are in the UART. */
  function CallsOf(p: Polled, op: Option<Op>, room: seq<Octet>): (calls: seq<Sessions.Call>)
    requires |room| == ROOM && (op.Some? ==> op.value.length <= |op.value.data|)
    ensures forall i :: 0 <= i < |calls| ==> Sessions.Proper(calls[i])
  {
    [Sessions.Polls([])] +
    ((if p.activity.received then [Sessions.Receives(Buffer(ROOM, room))] else []) +
     (if op.Some? then [Sessions.Sends(PacketFor(op.value))] else []))
  }

  /** What the window sees of a poll and the queue. */
  function RoundSeen(p: Polled, q: Queue): Round {
    Round(p.activity.sent, p.activity.received, p.value != 0, q.ops != [])
  }

  /** The sending half of a poll leaves a pending reliable packet and the numbers alone, and reports nothing. */
  lemma TransmitLeavesPending(s: State)
    requires ValidState(s) && s.link.le == ACTIVE && s.link.pkt == NONE
    requires s.link.out.Some? && s.link.out.value.reliable
    ensures var t := TransmitIfDue(s);
            && !t.early && !t.sent && ValidState(t.state) && t.state.rx == s.rx
            && t.state.link.out == s.link.out && t.state.link.le == ACTIVE
            && t.state.link.seqNo == s.link.seqNo && t.state.link.ackNo == s.link.ackNo
  {
    TransmitIsValid(s);
    hide Advance, Setup, EncodeHeader, HeaderOf, ValidState;
  }

  /** A reliable frame in sequence that acknowledges nothing. */
  lemma EventIsAccepted(l: Link, f: Frame)
    requires l.le == ACTIVE && f.channel != LE_CHANNEL && f.reliable && f.payload != []
    requires f.seqNo == l.ackNo && f.ackNo == l.seqNo
    ensures var e := Accept(l, See(f));
            e.delivered && e.activity.received && !e.activity.sent && e.link.out == l.out
  {
    hide Increment, WhichLe;
  }

  /** An event that nobody asked for is enough: an operation is pending and not acknowledged, another one is waiting,
      and the octets of a reliable frame that acknowledges nothing arrive. The poll reports a packet received and none
      sent, the pending operation is still pending, and the round replaces it. */
  lemma UnaskedEventReplaces(s: State, f: Frame, input: seq<Slip.Reading>, q: Queue, rounds: seq<Round>,
                             room: seq<Octet>)
    requires ValidState(s) && s.link.le == ACTIVE && s.link.pkt == NONE
    requires s.link.out.Some? && s.link.out.value.reliable
    requires s.rx.index < 0 && !s.rx.escaped && FrameReception.Room(s.rx, f)
    requires FrameReception.WellFormed(f) && f.channel != LE_CHANNEL && f.reliable && f.payload != []
    requires f.seqNo == s.link.ackNo && f.ackNo == s.link.seqNo && Slip.Carries(input, Wire(f))
    requires q.ops != [] && q.ops[0].length <= |q.ops[0].data|
    requires rounds != [] && Result(rounds, |rounds| - 1).dequeues
    ensures var p := Poll(s, input);
            && p.activity.received && !p.activity.sent && p.state.link.out == s.link.out
            && p.delivered == Some(Packet(f.channel, true, f.payload))
            && Replaces(rounds + [RoundSeen(p, q)], |rounds|)
            && EngineAfter(p, Some(q.ops[0]), room).link.out == Some(PacketFor(q.ops[0]))
  {
    TransmitLeavesPending(s);
    hide ValidState, TransmitIfDue, Receive, Accept, See, Wire, FrameReception.WellFormed, Result, Replaces;
    var t := TransmitIfDue(s).state;
    EventIsAccepted(t.link, f);
    FrameReception.FrameArrives(t, f, input);
    ReceivedReplaces(rounds, RoundSeen(Poll(s, input), q));
  }

  lemma ReceivedReplaces(rounds: seq<Round>, r: Round)
    requires rounds != [] && Result(rounds, |rounds| - 1).dequeues
    requires r.received && !r.sent && r.waiting
    ensures Replaces(rounds + [r], |rounds|)
  {
    var all, n := rounds + [r], |rounds| - 1;
    assert all[..n] == rounds[..n] && all[n] == rounds[n];
    assert Outstanding(all, n, |rounds|);
    ReplacesNow(all, |rounds|);
  }

  class HciLoop {
    const queue: HciQueue
    const engine: MicroBcsp
    const receivePacket: HostPacket
    const sendBuffer: array<Octet>
    var fetchNewCommand: bool
    var responseExpected: bool
    var timeout: nat

    ghost function State(): Window
      reads `fetchNewCommand, `responseExpected, `timeout
    {
      Window(fetchNewCommand, responseExpected, timeout)
    }

    /** The engine is armed with the loop's packet, and all buffers are different ones. */
    ghost predicate Wired()
      reads engine`receivePacket
    {
      && engine.receivePacket == receivePacket
      && receivePacket.payload.Length == ROOM && sendBuffer.Length == ROOM
      && queue.Apart(sendBuffer, engine)
    }

    constructor (queue: HciQueue, engine: MicroBcsp, receivePacket: HostPacket, sendBuffer: array<Octet>)
      ensures this.queue == queue && this.engine == engine && this.receivePacket == receivePacket
      ensures this.sendBuffer == sendBuffer && State() == OPEN
    {
      this.queue, this.engine, this.receivePacket, this.sendBuffer := queue, engine, receivePacket, sendBuffer;
      fetchNewCommand, responseExpected, timeout := true, false, 0;
    }

    method NoteActivity(activity: Activity)
      modifies `fetchNewCommand, `responseExpected, `timeout
      ensures State() == Noted(old(State()), activity.sent, activity.received)
    {
      if activity.sent {
        timeout := 0;
        if !responseExpected {
          fetchNewCommand := true;
        }
      }
      if activity.received {
        timeout := 0;
        responseExpected := false;
        fetchNewCommand := true;
      }
    }

    /** What was received goes up to the bridge, by its channel. */
    method ForwardPacket() returns (up: seq<Forward>)
      requires 0 < receivePacket.length <= receivePacket.payload.Length
      ensures up == Forwarded(receivePacket.Contents())
    {
      var payload := receivePacket.payload[..receivePacket.length];
      up := [];
      if receivePacket.channel == EVENT_CHANNEL {
        if payload[0] != HARDWARE_ERROR {
          up := [HciEvent(payload)];
        }
      } else if receivePacket.channel == ACL_CHANNEL {
        up := [HciData(payload)];
      }
    }

    /** The receive packet is armed with all of its room. */
    method Rearm()
      requires engine.Valid() && engine.receivePacket == null && receivePacket.payload.Length == ROOM
      requires !engine.Static(receivePacket.payload)
      modifies receivePacket`length, engine`receivePacket, engine`receiveIndex
      ensures engine.Valid() && engine.receivePacket == receivePacket
      ensures engine.Abs() == ReceivePacket(old(engine.Abs()), Buffer(ROOM, receivePacket.payload[..]))
    {
      hide ValidState, MicroBcsp.Readable, MicroBcsp.AbsTx;
      receivePacket.length := ROOM;
      engine.ReceiveInto(receivePacket);
    }

    /** A round up to the queue: poll, note what happened, hand up what was received and arm the engine again. */
    method PollAndForward() returns (up: seq<Forward>, delay: nat)
      requires engine.Valid() && engine.receivePacket == receivePacket && receivePacket.payload.Length == ROOM
      modifies `fetchNewCommand, `responseExpected, `timeout
      modifies engine, engine.receiveHeader, engine.sendHeader, engine.sendAckHeader, engine.sendCrc
      modifies receivePacket, receivePacket.payload
      ensures engine.Valid() && engine.receivePacket == receivePacket
      ensures var p := old(Poll(engine.Abs(), engine.input));
              && State() == Noted(old(State()), p.activity.sent, p.activity.received)
              && engine.Abs() == EngineAfter(p, None, receivePacket.payload[..])
              && engine.input == p.rest && engine.output == old(engine.output) + p.output
              && delay == p.value && up == (if p.delivered.Some? then Forwarded(p.delivered.value) else [])
    {
      hide Forwarded, Noted, Poll, ValidState, MicroBcsp.Readable, MicroBcsp.AbsTx, MicroBcsp.AbsRx;
      up := [];
      var activity;
      Sessions.ReceivedMeans(engine.Abs(), engine.input);
      engine.Armed();
      assert !engine.Static(receivePacket.payload);
      activity, delay := engine.PollOnce();
      engine.Armed();
      NoteActivity(activity);
      if activity.received {
        up := ForwardPacket();
        Rearm();
      }
    }

    method CountDelay(delay: nat) returns (timesOut: bool)
      modifies `fetchNewCommand, `responseExpected, `timeout
      ensures (State(), timesOut) == Timed(old(State()), delay != 0)
    {
      timesOut := false;
      if delay != 0 {
        if !fetchNewCommand {
          timeout := timeout + 1;
        }
        if timeout >= TIMEOUT && !fetchNewCommand {
          timeout := 0;
          fetchNewCommand := true;
          responseExpected := true;
          timesOut := true;
        }
      }
    }

    /** The next operation goes to the engine if the window is open. */
    method SendNext() returns (ghost dequeues: bool)
      requires queue.Valid() && engine.Valid() && Wired()
      requires queue.Contents().ops != [] ==> Fits(queue.Contents().ops[0], ROOM)
      modifies `fetchNewCommand, `responseExpected, queue`queueHead, queue`queueTail, sendBuffer
      modifies engine`link, engine`sender
      ensures queue.Valid() && engine.Valid()
      ensures var w, before := old(State()), old(queue.Contents());
              && dequeues == (w.fetch && before.ops != [])
              && State() == (if dequeues then w.(fetch := false, expected := true) else w)
              && queue.Contents() == (if dequeues then Dequeued(before) else before)
              && engine.Abs() == (if dequeues then SendPacket(old(engine.Abs()), PacketFor(before.ops[0]))
                                  else old(engine.Abs()))
    {
      hide HciQueue.Contents, HciQueue.Valid, Dequeued, MicroBcsp.Abs, MicroBcsp.Valid;
      dequeues := false;
      var isEmpty := queue.IsEmpty();
      if fetchNewCommand && !isEmpty {
        var taken := queue.Dequeue(sendBuffer, engine);
        responseExpected := true;
        fetchNewCommand := false;
        dequeues := true;
      }
    }

    /** The body of the endless loop of hci_do_poll: polls the engine, hands up what was received and arms the engine
        again, sends the next operation if the window is open, and counts the delay. */
    method Iterate() returns (up: seq<Forward>)
      requires queue.Valid() && engine.Valid() && Wired()
      requires queue.Contents().ops != [] ==> Fits(queue.Contents().ops[0], ROOM)
      modifies `fetchNewCommand, `responseExpected, `timeout, queue`queueHead, queue`queueTail, sendBuffer
      modifies engine, engine.receiveHeader, engine.sendHeader, engine.sendAckHeader, engine.sendCrc
      modifies receivePacket, receivePacket.payload
      ensures queue.Valid() && engine.Valid() && Wired()
      ensures var p, before := old(Poll(engine.Abs(), engine.input)), old(queue.Contents());
              var r := NextRound(old(State()),
                                 Round(p.activity.sent, p.activity.received, p.value != 0, before.ops != []));
              && State() == r.window
              && queue.Contents() == (if r.dequeues then Dequeued(before) else before)
              && engine.Abs() == EngineAfter(p, if r.dequeues then Some(before.ops[0]) else None,
                                             receivePacket.payload[..])
              && engine.input == p.rest && engine.output == old(engine.output) + p.output
              && up == UpIn(Turn(p.delivered, r.timesOut))
    {
      hide HciQueue.Contents, HciQueue.Valid, Dequeued, Forwarded, Noted, Timed, Poll, ValidState;
      hide MicroBcsp.Readable, MicroBcsp.AbsTx, MicroBcsp.AbsRx, MicroBcsp.Abs, MicroBcsp.Valid;
      var delay;
      ghost var before := queue.Contents();
      up, delay := PollAndForward();
      assert queue.Valid() && queue.Contents() == before && Wired();
      var _ := SendNext();
      var timesOut := CountDelay(delay);
      up := up + if timesOut then [PlaygroundTimeout] else [];
    }
  }
}
