/** The session object of one player: its reliable channel, its leave state and its recall state. */
module PlayerSessions {
  import opened UInt32
  import opened ReceiveWindow
  import opened SessionModel
  import Ch = ReliableChannel

  /** A packet kept for retransmission, with the time it last went out. */
  datatype PendingPacket = PendingPacket(packet: Ch.Packet, sentAtMs: u32)

  function RetransmitTimeout(rttMs: u32): u32 {
    var t := rttMs * 3 % WORD / 2;
    if t < 50 then 50 else if t > 1000 then 1000 else t
  }

  /** Smoothed round trip in uint32_t arithmetic, floored at 20 ms. */
  function SmoothedRtt(rttMs: u32, sample: u32): u32 {
    var r := (rttMs * 7 + sample) % WORD / 8;
    if r < 20 then 20 else r
  }

  /** Unacknowledged for at least the timeout, in wrapping time. */
  predicate IsOverdue(pending: PendingPacket, rttMs: u32, nowMs: u32) {
    Minus(nowMs, pending.sentAtMs) >= RetransmitTimeout(rttMs)
  }

  ghost predicate AnyOverdue(pending: map<u32, PendingPacket>, rttMs: u32, nowMs: u32, starved: set<u32>) {
    exists s <- pending :: IsOverdue(pending[s], rttMs, nowMs) && s !in starved
  }

  /** The pending packets once the overdue ones have gone out again, except where no send buffer was to be had. */
  function Resent(pending: map<u32, PendingPacket>, rttMs: u32, nowMs: u32, starved: set<u32>): map<u32, PendingPacket>
  {
    map s | s in pending ::
      if IsOverdue(pending[s], rttMs, nowMs) && s !in starved then pending[s].(sentAtMs := nowMs) else pending[s]
  }

  /** Zero is no timestamp, and one that does not move forward from the last is stale. */
  predicate IsNewerStamp(last: u32, ts: u32) {
    ts != 0 && (last == 0 || SignedMinus(ts, last) > 0)
  }

  class PlayerSession {
    var sendRSeq: u32
    var sendUSeq: Ch.u16
    var hasRRecv: bool
    var rRecvHighestSeq: u32
    var rRecvBitfield: u32
    var hasURecv: bool
    var uRecvHighestSeq: Ch.u16
    var pendingReliable: map<u32, PendingPacket>
    var rttMs: u32
    var lastEchoTs: u32
    var lastRecvTimestamp: u32

    var sessionState: SessionState
    var leaveState: LeaveState
    var leaveReason: LeaveReason
    var leaveMarkedAt: int
    var leaveNotifyRSeq: u32
    var leftNotified: bool
    var sentToMain: seq<Report>

    var objectId: int
    var interactingContainerId: int
    var items: multiset<int>

    var isRecalling: bool
    var recallGeneration: nat
    var recallPassCount: nat
    var recallSpotIndex: nat

    // History: every reliable sequence that arrived, and every one discarded unacknowledged.
    ghost var arrivals: seq<u32>
    ghost var cleared: set<u32>

    ghost function View(): Session
      reads this`sessionState, this`leaveState, this`leaveReason, this`leaveMarkedAt, this`leaveNotifyRSeq,
            this`leftNotified, this`sentToMain, this`pendingReliable, this`lastEchoTs, this`items,
            this`isRecalling, this`recallGeneration, this`recallPassCount, this`recallSpotIndex
    {
      Session(sessionState, leaveState, leaveReason, leaveMarkedAt, leaveNotifyRSeq, leftNotified, sentToMain,
              pendingReliable.Keys, lastEchoTs, items,
                  Recall(isRecalling, recallGeneration, recallPassCount, recallSpotIndex))
    }

    ghost function Packets(): map<u32, Ch.Packet> reads this {
      map s | s in pendingReliable :: pendingReliable[s].packet
    }

    ghost function Channel(): Ch.Endpoint reads this {
      Ch.Endpoint(sendRSeq, sendUSeq, Window(hasRRecv, rRecvHighestSeq, rRecvBitfield),
          Ch.Newest(hasURecv, uRecvHighestSeq),
                  Packets(), arrivals, cleared)
    }

    constructor (items: multiset<int>)
      ensures View() == NewSession(items) && Channel() == Ch.START && rttMs == 100
      ensures objectId == NOBODY && interactingContainerId == NO_CONTAINER
    {
      sendRSeq, sendUSeq := 0, 0;
      hasRRecv, rRecvHighestSeq, rRecvBitfield := false, 0, 0;
      hasURecv, uRecvHighestSeq := false, 0;
      pendingReliable, rttMs, lastEchoTs, lastRecvTimestamp := map[], 100, 0, 0;
      sessionState, leaveState, leaveReason, leaveMarkedAt := INIT, STAYING, NONE, 0;
      leaveNotifyRSeq, leftNotified, sentToMain := 0, false, [];
      objectId, interactingContainerId, this.items := NOBODY, NO_CONTAINER, items;
      isRecalling, recallGeneration, recallPassCount, recallSpotIndex := false, 0, 0, 0;
      arrivals, cleared := [], {};
    }

    // ---- The reliable channel ----

    method UpdateRRecvState(rSeqNum: u32) returns (isNew: bool)
      modifies this`hasRRecv, this`rRecvHighestSeq, this`rRecvBitfield
      ensures isNew == Accepts(old(Channel()).window, rSeqNum)
      ensures Channel() == old(Channel()).(window := Receive(old(Channel()).window, rSeqNum))
    {
      if !hasRRecv {
        rRecvHighestSeq, rRecvBitfield, hasRRecv := rSeqNum, 0, true;
        return true;
      }
      if rSeqNum > rRecvHighestSeq {
        var diff := rSeqNum - rRecvHighestSeq;
        rRecvBitfield := if diff >= 32 then 0 else WithBit(ShiftLeft(rRecvBitfield, diff), diff - 1);
        rRecvHighestSeq := rSeqNum;
        return true;
      }
      if rSeqNum == rRecvHighestSeq { return false; }
      var diff := rRecvHighestSeq - rSeqNum;
      if diff > 32 { return false; }
      if Bit(rRecvBitfield, diff - 1) { return false; }
      rRecvBitfield := WithBit(rRecvBitfield, diff - 1);
      isNew := true;
    }

    method UpdateURecvState(uSeqNum: Ch.u16) returns (isNew: bool)
      modifies this`hasURecv, this`uRecvHighestSeq
      ensures isNew == Ch.AcceptsUnreliable(old(Channel()).newest, uSeqNum)
      ensures Channel() == if isNew then old(Channel()).(newest := Ch.Newest(true, uSeqNum)) else old(Channel())
    {
      if hasURecv && !(0 < (uSeqNum - uRecvHighestSeq) % 0x1_0000 < 0x8000) { return false; }
      uRecvHighestSeq, hasURecv := uSeqNum, true;
      isNew := true;
    }

    method ReleaseBySeq(s: u32)
      modifies this`pendingReliable
      ensures pendingReliable == old(pendingReliable) - {s}
    {
      if s in pendingReliable { pendingReliable := pendingReliable - {s}; }
    }

    /** The bit loop, with its early exits, drops from pending exactly what the acknowledgement covers. */
    method ProcessIncomingAck(ackSeqNum: u32, ackBitfield: u32)
      modifies this`pendingReliable
      ensures pendingReliable == Ch.Acknowledge(old(pendingReliable), ackSeqNum, ackBitfield)
    {
      ReleaseBySeq(ackSeqNum);
      var bits := ackBitfield;
      var i := 0;
      while pendingReliable != map[] && i < 32 && bits != 0
        invariant 0 <= i <= 32 && bits == ShiftRight(ackBitfield, i)
        invariant pendingReliable == map s | s in old(pendingReliable) && !CoversUpTo(ackSeqNum, ackBitfield, i, s) ::
          old(pendingReliable)[s]
        decreases 32 - i
      {
        BitOfShiftRight(ackBitfield, i, 0);
        CoversOneMore(ackSeqNum, ackBitfield, i);
        if bits % 2 == 1 { ReleaseBySeq(Minus(ackSeqNum, i + 1)); }
        bits := bits / 2;
        i := i + 1;
      }
      CoversFromLoop(ackSeqNum, ackBitfield, i);
    }

    method RegisterReliable(packet: Ch.Packet, nowMs: u32)
      modifies this`pendingReliable
      ensures pendingReliable == if packet.rSeq in old(pendingReliable) then old(pendingReliable)
                                 else old(pendingReliable)[packet.rSeq := PendingPacket(packet, nowMs)]
    {
      if packet.rSeq !in pendingReliable {
        pendingReliable := pendingReliable[packet.rSeq := PendingPacket(packet, nowMs)];
      }
    }

    /** The duplicate filter of HandleClientPacket: reliable and unreliable sequences have their own. */
    method FilterPacket(p: Ch.Packet) returns (isNew: bool)
      modifies this`hasRRecv, this`rRecvHighestSeq, this`rRecvBitfield, this`hasURecv, this`uRecvHighestSeq,
        this`arrivals
      ensures isNew == if p.reliable then Accepts(old(Channel()).window, p.rSeq)
        else Ch.AcceptsUnreliable(old(Channel()).newest, p.uSeq)
      ensures arrivals == if p.reliable then old(arrivals) + [p.rSeq] else old(arrivals)
      ensures Channel().window == if p.reliable then Receive(old(Channel()).window, p.rSeq) else old(Channel()).window
      ensures Channel().newest == if !p.reliable && isNew then Ch.Newest(true, p.uSeq) else old(Channel()).newest
    {
      if p.reliable {
        isNew := UpdateRRecvState(p.rSeq);
        arrivals := arrivals + [p.rSeq];
      } else {
        isNew := UpdateURecvState(p.uSeq);
      }
    }

    /** HandleClientPacket up to the payload handler. */
    method HandleClientPacket(p: Ch.Packet, timestamp: u32, timestampEcho: u32, nowMs: u32) returns (handled: bool)
      modifies this`hasRRecv, this`rRecvHighestSeq, this`rRecvBitfield, this`hasURecv, this`uRecvHighestSeq,
        this`arrivals,
               this`pendingReliable, this`lastRecvTimestamp, this`lastEchoTs, this`rttMs
      ensures Channel() == Ch.HandlePacket(old(Channel()), p)
      ensures handled == if p.reliable then Accepts(old(Channel()).window, p.rSeq)
        else Ch.AcceptsUnreliable(old(Channel()).newest, p.uSeq)
      ensures lastRecvTimestamp == if handled && IsNewerStamp(old(lastRecvTimestamp), timestamp) then timestamp
        else old(lastRecvTimestamp)
      ensures if handled && IsNewerStamp(old(lastEchoTs), timestampEcho)
        then lastEchoTs == timestampEcho && rttMs == SmoothedRtt(old(rttMs), Minus(nowMs, timestampEcho))
        else lastEchoTs == old(lastEchoTs) && rttMs == old(rttMs)
    {
      handled := FilterPacket(p);
      if !handled { return; }
      ProcessIncomingAck(p.ack, p.ackBits);
      NoteTimes(timestamp, timestampEcho, nowMs);
    }

    method NoteTimes(timestamp: u32, timestampEcho: u32, nowMs: u32)
      modifies this`lastRecvTimestamp, this`lastEchoTs, this`rttMs
      ensures lastRecvTimestamp == if IsNewerStamp(old(lastRecvTimestamp), timestamp) then timestamp
        else old(lastRecvTimestamp)
      ensures if IsNewerStamp(old(lastEchoTs), timestampEcho)
        then lastEchoTs == timestampEcho && rttMs == SmoothedRtt(old(rttMs), Minus(nowMs, timestampEcho))
        else lastEchoTs == old(lastEchoTs) && rttMs == old(rttMs)
      ensures Channel() == old(Channel())
    {
      if timestamp != 0 { SetLastRecvTimestamp(timestamp); }
      if timestampEcho != 0 { UpdateRtt(timestampEcho, nowMs); }
      assert Packets() == old(Packets());
    }

    /** MakeD2CPacketImpl: number the packet, piggyback the receive window, keep a reliable one for retransmission. */
    method MakePacket(reliable: bool, nowMs: u32) returns (p: Ch.Packet)
      requires Ch.CanSend(Channel(), reliable)
      requires forall s <- pendingReliable :: s <= sendRSeq
      modifies this
      ensures p == Ch.MakePacket(old(Channel()), reliable)
      ensures Channel() == Ch.AfterSend(old(Channel()), reliable)
      ensures reliable ==> p.rSeq in pendingReliable && pendingReliable[p.rSeq] == PendingPacket(p, nowMs)
    {
      if reliable {
        sendRSeq := sendRSeq + 1;
        p := Ch.Packet(true, sendRSeq, 0, rRecvHighestSeq, rRecvBitfield);
        RegisterReliable(p, nowMs);
      } else {
        sendUSeq := (sendUSeq + 1) % 0x1_0000;
        p := Ch.Packet(false, 0, sendUSeq, rRecvHighestSeq, rRecvBitfield);
      }
    }

    /** Each packet unacknowledged for the timeout is a candidate, once. */
    method GetRetransmitCandidates(nowMs: u32) returns (result: seq<u32>)
      ensures forall s: u32 :: s in result <==> s in pendingReliable && IsOverdue(pendingReliable[s], rttMs, nowMs)
      ensures forall i, j | 0 <= i < j < |result| :: result[i] != result[j]
    {
      var timeout := RetransmitTimeout(rttMs);
      result := [];
      var todo := pendingReliable.Keys;
      while todo != {}
        invariant todo <= pendingReliable.Keys
        invariant forall s: u32 :: s in result <==>
          s in pendingReliable && s !in todo && IsOverdue(pendingReliable[s], rttMs, nowMs)
        invariant forall i, j | 0 <= i < j < |result| :: result[i] != result[j]
        decreases todo
      {
        var s :| s in todo;
        if Minus(nowMs, pendingReliable[s].sentAtMs) >= timeout { result := result + [s]; }
        todo := todo - {s};
      }
    }

    /** CheckRetransmits on one session: every candidate goes out once as it was, and is dated anew. */
    method Retransmit(nowMs: u32, starved: set<u32>) returns (sent: seq<u32>)
      modifies this`pendingReliable
      ensures pendingReliable == Resent(old(pendingReliable), rttMs, nowMs, starved)
      ensures Channel() == old(Channel()) && View() == old(View())
      ensures forall s: u32 :: s in sent <==>
        s in old(pendingReliable) && IsOverdue(old(pendingReliable)[s], rttMs, nowMs) && s !in starved
      ensures forall i, j | 0 <= i < j < |sent| :: sent[i] != sent[j]
      ensures sent != [] <==> AnyOverdue(old(pendingReliable), rttMs, nowMs, starved)
    {
      var candidates := GetRetransmitCandidates(nowMs);
      sent := Resend(candidates, nowMs, starved);
      assert Packets() == old(Packets());
      if sent != [] { assert sent[0] in sent; }
    }

    method Resend(candidates: seq<u32>, nowMs: u32, starved: set<u32>) returns (sent: seq<u32>)
      requires forall s <- candidates :: s in pendingReliable
      requires forall i, j | 0 <= i < j < |candidates| :: candidates[i] != candidates[j]
      modifies this`pendingReliable
      ensures pendingReliable.Keys == old(pendingReliable).Keys
      ensures forall s <- pendingReliable ::
        pendingReliable[s] == if s in candidates && s !in starved then old(pendingReliable)[s].(sentAtMs := nowMs)
            else old(pendingReliable)[s]
      ensures forall s: u32 :: s in sent <==> s in candidates && s !in starved
      ensures forall i, j | 0 <= i < j < |sent| :: sent[i] != sent[j]
    {
      sent := [];
      var i := 0;
      while i < |candidates|
        invariant 0 <= i <= |candidates| && pendingReliable.Keys == old(pendingReliable).Keys
        invariant forall s: u32 :: s in sent <==> s in candidates[..i] && s !in starved
        invariant forall j, k | 0 <= j < k < |sent| :: sent[j] != sent[k]
        invariant forall s <- pendingReliable ::
          pendingReliable[s] == if s in sent then old(pendingReliable)[s].(sentAtMs := nowMs)
              else old(pendingReliable)[s]
      {
        var s := candidates[i];
        if s !in starved {
          pendingReliable := pendingReliable[s := pendingReliable[s].(sentAtMs := nowMs)];
          sent := sent + [s];
        }
        i := i + 1;
      }
      assert candidates[..i] == candidates;
    }

    method ClearPendingReliableExcept(keepSeq: u32)
      modifies this`pendingReliable, this`cleared
      ensures pendingReliable == Ch.KeepOnly(old(pendingReliable), keepSeq)
      ensures cleared == old(cleared) + (old(pendingReliable).Keys - pendingReliable.Keys)
    {
      var todo := pendingReliable.Keys;
      while todo != {}
        invariant cleared == old(cleared)
        invariant todo <= pendingReliable.Keys <= old(pendingReliable).Keys
        invariant forall s <- pendingReliable :: pendingReliable[s] == old(pendingReliable)[s]
        invariant forall s: u32 :: s in pendingReliable <==>
          s in old(pendingReliable) && (s in todo || (s == keepSeq && keepSeq != 0))
        decreases todo
      {
        var s :| s in todo;
        if !(s == keepSeq && keepSeq != 0) { pendingReliable := pendingReliable - {s}; }
        todo := todo - {s};
      }
      cleared := cleared + (old(pendingReliable).Keys - pendingReliable.Keys);
    }

    method SetLastRecvTimestamp(ts: u32)
      requires ts != 0
      modifies this`lastRecvTimestamp
      ensures lastRecvTimestamp == if IsNewerStamp(old(lastRecvTimestamp), ts) then ts else old(lastRecvTimestamp)
    {
      if lastRecvTimestamp != 0 && SignedMinus(ts, lastRecvTimestamp) <= 0 { return; }
      lastRecvTimestamp := ts;
    }

    /** An echo that does not move forward belongs to a retransmission and is ignored. */
    method UpdateRtt(echoTs: u32, nowMs: u32)
      modifies this`rttMs, this`lastEchoTs
      ensures if IsNewerStamp(old(lastEchoTs), echoTs)
        then lastEchoTs == echoTs && rttMs == SmoothedRtt(old(rttMs), Minus(nowMs, echoTs))
        else lastEchoTs == old(lastEchoTs) && rttMs == old(rttMs)
    {
      if echoTs == 0 { return; }
      if lastEchoTs != 0 && SignedMinus(echoTs, lastEchoTs) <= 0 { return; }
      lastEchoTs := echoTs;
      rttMs := SmoothedRtt(rttMs, Minus(nowMs, echoTs));
    }

    // ---- Leaving ----

    method MarkLeaving(reason: LeaveReason, notifyRSeq: u32, clock: int)
      modifies this`leaveState, this`leaveReason, this`leaveMarkedAt, this`leaveNotifyRSeq, this`sessionState
      ensures View() == SessionModel.MarkLeaving(old(View()), reason, notifyRSeq, clock)
    {
      if reason == NONE { return; }
      if leaveState == DETACHED || leaveState == FINALIZED { return; }
      if leaveState == PENDING {
        if leaveReason != DISCONNECTED { return; }
        if reason == DISCONNECTED { return; }
      }
      SetPending(reason, notifyRSeq, clock);
    }

    method SetPending(reason: LeaveReason, notifyRSeq: u32, clock: int)
      requires reason != NONE
      modifies this`leaveState, this`leaveReason, this`leaveMarkedAt, this`leaveNotifyRSeq, this`sessionState
      ensures leaveState == PENDING && leaveReason == reason && leaveMarkedAt == clock
      ensures leaveNotifyRSeq == if notifyRSeq != 0 then notifyRSeq else old(leaveNotifyRSeq)
      ensures sessionState == if reason == DEAD then SPECTATING else if reason != DISCONNECTED then LEFT
        else old(sessionState)
    {
      leaveState, leaveReason, leaveMarkedAt := PENDING, reason, clock;
      if notifyRSeq != 0 { leaveNotifyRSeq := notifyRSeq; }
      if reason == DEAD {
        sessionState := SPECTATING;
      } else if reason != DISCONNECTED {
        sessionState := LEFT;
      }
    }

    method NotifyLeftOnce()
      modifies this`leftNotified, this`sentToMain
      ensures View() == SessionModel.NotifyLeftOnce(old(View()))
    {
      if leftNotified { return; }
      leftNotified := true;
      sentToMain := sentToMain + [Report(leaveReason, if leaveReason == RECALLED then items else multiset{})];
    }

    method FinalizeLeave()
      modifies this`pendingReliable, this`cleared, this`leaveState, this`sessionState, this`leftNotified,
        this`sentToMain
      ensures View() == SessionModel.FinalizeLeave(old(View()))
    {
      ClearPendingReliableExcept(0);
      assert pendingReliable.Keys == {};
      leaveState := FINALIZED;
      sessionState := LEFT;
      NotifyLeftOnce();
    }

    // ---- Recall ----

    method BeginRecall(spotIndex: nat) returns (began: bool)
      modifies this`isRecalling, this`recallGeneration, this`recallPassCount, this`recallSpotIndex
      ensures began == !old(isRecalling)
      ensures View() == old(View()).(recall := SessionModel.BeginRecall(old(View()).recall, spotIndex))
    {
      if isRecalling { return false; }
      recallGeneration := recallGeneration + 1;
      isRecalling, recallPassCount, recallSpotIndex := true, 0, spotIndex;
      began := true;
    }

    method EndRecall()
      modifies this`isRecalling, this`recallGeneration
      ensures View() == old(View()).(recall := SessionModel.EndRecall(old(View()).recall))
    {
      isRecalling := false;
      recallGeneration := recallGeneration + 1;
    }
  }

  // ---- The acknowledgement loop ----

  /** What the first n bits of the field cover, together with ack itself. */
  predicate CoversUpTo(ack: u32, bits: u32, n: nat, s: u32) {
    s == ack || (1 <= Minus(ack, s) <= n && Bit(bits, Minus(ack, s) - 1))
  }

  lemma CoversOneMore(ack: u32, bits: u32, n: nat)
    requires n < 32
    ensures forall s: u32 :: CoversUpTo(ack, bits, n + 1, s) <==>
      CoversUpTo(ack, bits, n, s) || (Bit(bits, n) && s == Minus(ack, n + 1))
  {}

  /** Nothing beyond bit n - 1 is covered once the shifted field is empty. */
  lemma CoversFromLoop(ack: u32, bits: u32, n: nat)
    requires n <= 32
    ensures forall s: u32 | CoversUpTo(ack, bits, n, s) :: Covers(ack, bits, s)
    ensures n == 32 || ShiftRight(bits, n) == 0 ==> forall s: u32 | Covers(ack, bits, s) :: CoversUpTo(ack, bits, n, s)
  {
    if n < 32 && ShiftRight(bits, n) == 0 {
      forall s: u32 | Covers(ack, bits, s) ensures CoversUpTo(ack, bits, n, s) {
        var d := Minus(ack, s);
        if n < d {
          BitOfShiftRight(bits, n, d - 1 - n);
          BitOfZero(d - 1 - n);
        }
      }
    }
  }

  /** A retransmission never goes out sooner than 50 ms after the last one nor waits past a second. */
  lemma TimeoutBounds(rttMs: u32)
    ensures 50 <= RetransmitTimeout(rttMs) <= 1000
  {}

  // ---- Times ----

  /** What the timeout is meant to be: one and a half round trips, between 50 and 1000 ms. */
  function MeantTimeout(rttMs: int): int {
    if rttMs * 3 / 2 < 50 then 50 else if rttMs * 3 / 2 > 1000 then 1000 else rttMs * 3 / 2
  }

  /** It is, exactly if the 32-bit product does not wrap, or wraps to something that is cut off all the same. */
  lemma TimeoutIff(rttMs: u32)
    ensures RetransmitTimeout(rttMs) == MeantTimeout(rttMs)
      <==> rttMs * 3 < 0x1_0000_0000 || (rttMs * 3) % 0x1_0000_0000 >= 2000
  {}

  /** So it grows with the round trip as long as that is below 2^32 / 3. */
  lemma TimeoutGrows(r: u32, s: u32)
    requires r <= s && s * 3 < 0x1_0000_0000
    ensures RetransmitTimeout(r) <= RetransmitTimeout(s)
  {
    TimeoutIff(r);
    TimeoutIff(s);
  }

  /** A measured round trip is below 2^29, so no session's timeout ever wraps. */
  lemma TimeoutOfMeasured(rttMs: u32, sample: u32)
    ensures SmoothedRtt(rttMs, sample) < 0x2000_0000
    ensures RetransmitTimeout(SmoothedRtt(rttMs, sample)) == MeantTimeout(SmoothedRtt(rttMs, sample))
  {
    TimeoutIff(SmoothedRtt(rttMs, sample));
  }

  /** A sample moves the round trip an eighth of the way, rounded down, and never below 20 ms: from a measured
      round trip on, as long as the sample itself does not overflow the sum. */
  lemma SmoothedBetween(rttMs: u32, sample: u32)
    requires rttMs < 0x2000_0000 && sample < 0x2000_0000
    ensures var r, lo, hi := SmoothedRtt(rttMs, sample), if rttMs < sample then rttMs else sample,
        if rttMs < sample then sample else rttMs;
      && r >= 20 && r >= lo && (r <= hi || r == 20)
      && (r > 20 ==> 0 <= (7 * rttMs + sample) - 8 * r < 8)
  {}

  /** Taking the sample out of hours of silence as it is, the 32-bit sum wraps: exactly then the smoothed value is not
      the average. */
  lemma SmoothedIff(rttMs: u32, sample: u32)
    ensures var average := (7 * rttMs + sample) / 8;
      SmoothedRtt(rttMs, sample) == (if average < 20 then 20 else average) <==> 7 * rttMs + sample < 0x1_0000_0000
  {}

  /** What moves a session's clocks forward: a stamp other than 0 less than 2^31 after the last one. */
  lemma NewerStampIff(last: u32, ts: u32)
    ensures IsNewerStamp(last, ts) <==> ts != 0 && (last == 0 || 0 < (ts - last) % 0x1_0000_0000 < 0x8000_0000)
  {}

  /** A packet that has gone out again waits at least 50 ms for its next turn and is due after a second; one that has
      not is left alone, and none is added or dropped. */
  lemma ResendSpacing(pending: map<u32, PendingPacket>, rttMs: u32, nowMs: u32, starved: set<u32>, s: u32, rtt2: u32,
      later: u32)
    requires s in pending
    ensures var p, q := pending[s], Resent(pending, rttMs, nowMs, starved);
      var due := (nowMs - p.sentAtMs) % 0x1_0000_0000 >= RetransmitTimeout(rttMs) && s !in starved;
      && q.Keys == pending.Keys && q[s].packet == p.packet
      && q[s].sentAtMs == (if due then nowMs else p.sentAtMs)
      && (due && (later - nowMs) % 0x1_0000_0000 < 50 ==> !IsOverdue(q[s], rtt2, later))
      && (due && (later - nowMs) % 0x1_0000_0000 >= 1000 ==> IsOverdue(q[s], rtt2, later))
  {
    TimeoutBounds(rtt2);
    assert Minus(nowMs, pending[s].sentAtMs) == (nowMs - pending[s].sentAtMs) % 0x1_0000_0000;
    assert Minus(later, nowMs) == (later - nowMs) % 0x1_0000_0000;
  }
}
