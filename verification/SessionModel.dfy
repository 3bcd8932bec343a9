/** The leave and recall side of one player session, as values.  Clock readings are steady-clock
    ticks of one nanosecond. */
module SessionModel {
  import opened UInt32

  datatype SessionState = INIT | CONNECTED | INPLAY | SPECTATING | LEFT
  datatype LeaveReason = NONE | RECALLED | DEAD | DISCONNECTED
  datatype LeaveState = STAYING | PENDING | DETACHED | FINALIZED

  /** What Main is told when a player leaves: the inventory travels only with a recall. */
  datatype Report = Report(reason: LeaveReason, items: multiset<int>)

  const NOBODY := -1
  const NO_CONTAINER := -1

  datatype Recall = Recall(active: bool, generation: nat, passes: nat, spot: nat)

  /** reports is the history of what was sent to Main. */
  datatype Session = Session(
    state: SessionState, leaveState: LeaveState, reason: LeaveReason, markedAt: int, notifyRSeq: u32,
    leftNotified: bool, reports: seq<Report>, pending: set<u32>, lastEchoTs: u32, items: multiset<int>, recall: Recall)

  function NewSession(items: multiset<int>): Session {
    Session(INIT, STAYING, NONE, 0, 0, false, [], {}, 0, items, Recall(false, 0, 0, 0))
  }

  const RECALL_REQUIRED_PASS_COUNT := 5
  const RECALL_TICK_INTERVAL_MS := 1000
  const DISCONNECT_TIMEOUT_MS := 6000
  const LEAVE_FINALIZE_TIMEOUT_MS := 3000
  const DEATH_GRACE_MS := 5000
  const ROOM_LIFETIME_MS := 600000
  const TICKS_PER_MS := 1_000_000

  predicate IsActiveState(s: Session) { s.state == CONNECTED || s.state == INPLAY }
  predicate HasLeft(s: Session) { s.leaveState == DETACHED || s.leaveState == FINALIZED }

  /** duration_cast to milliseconds truncates toward zero and the result is then cast to uint32_t, so a
      mark at least one millisecond in the future reads as an enormous elapsed time. */
  function ElapsedMs(from: int, to: int): u32 {
    var d := to - from;
    (if d >= 0 then d / TICKS_PER_MS else -((-d) / TICKS_PER_MS)) % WORD
  }

  function MarkLeaving(s: Session, reason: LeaveReason, notifyRSeq: u32, clock: int): Session {
    if reason == NONE || HasLeft(s) then s
    else if s.leaveState == PENDING && (s.reason != DISCONNECTED || reason == DISCONNECTED) then s
    else s.(leaveState := PENDING, reason := reason, markedAt := clock,
            notifyRSeq := if notifyRSeq != 0 then notifyRSeq else s.notifyRSeq,
            state := if reason == DEAD then SPECTATING else if reason != DISCONNECTED then LEFT else s.state)
  }

  function NotifyLeftOnce(s: Session): Session {
    if s.leftNotified then s
    else s.(leftNotified := true,
            reports := s.reports + [Report(s.reason, if s.reason == RECALLED then s.items else multiset{})])
  }

  function FinalizeLeave(s: Session): Session {
    NotifyLeftOnce(s.(pending := {}, leaveState := FINALIZED, state := LEFT))
  }

  function ClearPendingExcept(s: Session, keep: u32): Session {
    s.(pending := set q | q in s.pending && q == keep && keep != 0)
  }

  predicate IsFinalizeReady(s: Session, now: int) {
    if s.reason == DEAD then ElapsedMs(s.markedAt, now) >= DEATH_GRACE_MS
    else s.notifyRSeq == 0 || s.notifyRSeq !in s.pending || ElapsedMs(s.markedAt, now) >= LEAVE_FINALIZE_TIMEOUT_MS
  }

  predicate IsDisconnected(s: Session, nowMs: u32) {
    && s.state == INPLAY && s.leaveState == STAYING
    && s.lastEchoTs != 0 && Minus(nowMs, s.lastEchoTs) >= DISCONNECT_TIMEOUT_MS
  }

  function BeginRecall(r: Recall, spot: nat): Recall {
    if r.active then r else Recall(true, r.generation + 1, 0, spot)
  }

  function EndRecall(r: Recall): Recall {
    r.(active := false, generation := r.generation + 1)
  }

  /** The session's own part of DetachPlayer; hasBody says whether its player object is in the room. */
  function Detached(s: Session, hasBody: bool): Session {
    var lost := hasBody && (s.reason == DEAD || s.reason == DISCONNECTED);
    NotifyLeftOnce(s.(
      recall := EndRecall(s.recall),
      state := if s.reason == DEAD then SPECTATING else LEFT,
      items := if lost then multiset{} else s.items,
      leaveState := DETACHED))
  }

  // ---- Lifecycle ----

  function Rank(l: LeaveState): nat {
    match l case STAYING => 0 case PENDING => 1 case DETACHED => 2 case FINALIZED => 3
  }

  /** What holds of every session in every state it can reach. */
  ghost predicate SessionOk(s: Session) {
    && (s.leaveState == STAYING <==> s.reason == NONE)
    && (s.leftNotified <==> HasLeft(s))
    && (if HasLeft(s) then s.reports == [Report(s.reason, if s.reason == RECALLED then s.items else multiset{})]
        else s.reports == [])
    && (HasLeft(s) ==> !s.recall.active && (s.state == SPECTATING || s.state == LEFT))
    && (s.leaveState == PENDING && s.reason != DISCONNECTED ==> s.state == SPECTATING || s.state == LEFT)
  }

  /** How a session may change, over one step or any number of them: the leave state only moves forward,
      a recall or a death is final, and once Main was told nothing it was told about changes again. */
  ghost predicate MovesForward(s: Session, s': Session) {
    && Rank(s.leaveState) <= Rank(s'.leaveState)
    && (s.reason == RECALLED || s.reason == DEAD ==> s'.reason == s.reason && s'.markedAt == s.markedAt)
    && (HasLeft(s) ==>
      s'.reason == s.reason && s'.items == s.items && s'.reports == s.reports && s'.markedAt == s.markedAt)
    && s.reports <= s'.reports && |s'.reports| <= 1
  }

  lemma MarkLeavingKeeps(s: Session, reason: LeaveReason, notifyRSeq: u32, clock: int)
    requires SessionOk(s)
    ensures var s' := MarkLeaving(s, reason, notifyRSeq, clock); SessionOk(s') && MovesForward(s, s')
  {}

  lemma DetachKeeps(s: Session, hasBody: bool)
    requires SessionOk(s) && s.leaveState == PENDING
    ensures var s' := Detached(s, hasBody); SessionOk(s') && MovesForward(s, s')
  {}

  lemma FinalizeKeeps(s: Session)
    requires SessionOk(s) && HasLeft(s)
    ensures var s' := FinalizeLeave(s); SessionOk(s') && MovesForward(s, s')
  {}

  /** Which mark sticks: the first one, except that a recall or a death replaces a loss of connection; and a session
      that has been detached takes none.  A recall or a death also takes the player out of play at once. */
  lemma WhichMarkSticks(s: Session, reason: LeaveReason, notifyRSeq: u32, clock: int)
    requires SessionOk(s) && reason != NONE
    ensures var s' := MarkLeaving(s, reason, notifyRSeq, clock);
      if s.leaveState == STAYING || (s.leaveState == PENDING && s.reason == DISCONNECTED && reason != DISCONNECTED) then
        && s' == s.(leaveState := PENDING, reason := reason, markedAt := clock, notifyRSeq := s'.notifyRSeq,
                    state := s'.state)
        && s'.notifyRSeq == (if notifyRSeq == 0 then s.notifyRSeq else notifyRSeq)
        && (reason == DEAD ==> s'.state == SPECTATING) && (reason == RECALLED ==> s'.state == LEFT)
        && (reason == DISCONNECTED ==> s'.state == s.state)
      else s' == s
  {}

  lemma MovesForwardTransitive(s: Session, t: Session, u: Session)
    requires MovesForward(s, t) && MovesForward(t, u)
    ensures MovesForward(s, u)
  {}

  /** When a time of ms milliseconds counts as elapsed: once it has, and whenever the mark lies a millisecond or more
      ahead of the reading. */
  lemma ElapsedReaches(from: int, to: int, ms: int)
    requires 0 < ms < WORD && -(WORD - ms) * 1_000_000 < to - from < WORD * 1_000_000
    ensures ElapsedMs(from, to) >= ms <==> to - from >= ms * 1_000_000 || from - to >= 1_000_000
  {
    var d := to - from;
    if d >= 0 {
      assert 0 <= d / TICKS_PER_MS < WORD;
    } else {
      var k := (-d) / TICKS_PER_MS;
      assert 0 <= k <= WORD - ms;
      if k > 0 { assert (-k) % WORD == WORD - k; }
    }
  }

  // ---- The death grace ----

  /** A dead session is ready to finalize exactly when its grace has passed, or when its mark lies at
      least one millisecond after the pass's clock reading. */
  lemma DeathGraceIff(s: Session, now: int)
    requires s.reason == DEAD && -(WORD - DEATH_GRACE_MS) * TICKS_PER_MS < now - s.markedAt < WORD * TICKS_PER_MS
    ensures IsFinalizeReady(s, now)
      <==> now - s.markedAt >= DEATH_GRACE_MS * TICKS_PER_MS || s.markedAt - now >= TICKS_PER_MS
  {}
}
