/** What single events do to a room, in its fields and the source's numbers alone: nothing here is stated through
    the functions that compute the next room. */
module RoomSteps {
  import opened UInt32
  import opened SessionModel
  import opened HostileNpc
  import opened RoomModel
  import opened RoomRuns
  import O = Occupancy

  // ---- One leave pass ----

  /** The room's ten minutes are over and no earlier pass has noticed. */
  predicate RoomEnds(r: Room, now: int) { !r.lifetimeExpired && ElapsedMs(r.createdAt, now) >= 600_000 }

  /** The session's player object is in the room and its death is pending. */
  predicate Dies(r: Room, i: int) {
    i in r.hold.objects && r.hold.objects[i] != -1 && r.hold.objects[i] in r.players && r.players[r.hold.objects[i]]
  }

  /** In play, and the last echo, if there was any, is six seconds old or older on the wrapping 32-bit clock. */
  predicate Silent(s: Session, nowMs: u32) {
    s.state == INPLAY && s.lastEchoTs != 0 && (nowMs - s.lastEchoTs) % 0x1_0000_0000 >= 6000
  }

  predicate InRoom(s: Session) { s.leaveState == STAYING || s.leaveState == PENDING }

  /** The confirmation still awaited when the pass detaches or has detached the session: the death's five seconds,
      otherwise the notification's acknowledgement or three seconds. */
  predicate Done(reason: LeaveReason, mark: int, notifyRSeq: u32, pending: set<u32>, now: int) {
    if reason == DEAD then ElapsedMs(mark, now) >= 5000
    else notifyRSeq == 0 || notifyRSeq !in pending || ElapsedMs(mark, now) >= 3000
  }

  lemma MarkedStaying(s: Session, ends: bool, dies: bool, clock: int, nowMs: u32)
    requires s.leaveState == STAYING
    ensures var m := Marked(s, ends, dies, clock, nowMs);
      if ends || dies then m == s.(leaveState := PENDING, reason := DEAD, markedAt := clock, state := SPECTATING)
      else if Silent(s, nowMs) then m == s.(leaveState := PENDING, reason := DISCONNECTED, markedAt := clock)
      else m == s
  {}

  lemma MarkedPending(s: Session, ends: bool, dies: bool, clock: int, nowMs: u32)
    requires s.leaveState == PENDING
    ensures var m := Marked(s, ends, dies, clock, nowMs);
      if s.reason == DISCONNECTED && (ends || dies) then m == s.(reason := DEAD, markedAt := clock, state := SPECTATING)
      else m == s
  {}

  lemma SettledLeaver(m: Session, hasBody: bool, now: int)
    requires m.leaveState == PENDING
    ensures var s' := Settled(Cleared(m), hasBody, now);
      && (s'.leaveState == DETACHED || s'.leaveState == FINALIZED)
      && s'.reason == m.reason && s'.markedAt == m.markedAt && s'.notifyRSeq == m.notifyRSeq
  {}

  /** Who moves: a session that stays is moved exactly if the room ends, its object dies or it has fallen silent;
      the first two are deaths.  Otherwise it stays exactly as it is. */
  lemma StayingSession(s: Session, hasBody: bool, ends: bool, dies: bool, now: int, clock: int, nowMs: u32)
    requires s.leaveState == STAYING
    ensures var s' := PassSession(s, hasBody, ends, dies, now, clock, nowMs);
      && (s'.leaveState != STAYING <==> ends || dies || Silent(s, nowMs))
      && (s'.leaveState == STAYING ==> s' == s)
      && (s'.leaveState != STAYING ==>
        && s'.reason == (if ends || dies then DEAD else DISCONNECTED)
        && s'.markedAt == clock && s'.notifyRSeq == s.notifyRSeq)
  {
    MarkedStaying(s, ends, dies, clock, nowMs);
    var m := Marked(s, ends, dies, clock, nowMs);
    if m.leaveState == PENDING { SettledLeaver(m, hasBody, now); }
  }

  /** Who is leaving already goes; only a loss of connection is still overridden, by a death. */
  lemma PendingSession(s: Session, hasBody: bool, ends: bool, dies: bool, now: int, clock: int, nowMs: u32)
    requires s.leaveState == PENDING
    ensures var s' := PassSession(s, hasBody, ends, dies, now, clock, nowMs);
      && (s'.leaveState == DETACHED || s'.leaveState == FINALIZED) && s'.notifyRSeq == s.notifyRSeq
      && (if s.reason == DISCONNECTED && (ends || dies) then s'.reason == DEAD && s'.markedAt == clock
          else s'.reason == s.reason && s'.markedAt == s.markedAt)
  {
    MarkedPending(s, ends, dies, clock, nowMs);
    SettledLeaver(Marked(s, ends, dies, clock, nowMs), hasBody, now);
  }

  /** How s' comes out of a pass that detaches it. */
  ghost predicate Left(s: Session, s': Session, hasBody: bool, now: int) {
    && s'.items == (if hasBody && (s'.reason == DEAD || s'.reason == DISCONNECTED) then multiset{} else s.items)
    && s'.reports == [Report(s'.reason, if s'.reason == RECALLED then s'.items else multiset{})]
    && !s'.recall.active && s'.recall.generation > s.recall.generation && s'.lastEchoTs == s.lastEchoTs
    && (s'.leaveState == FINALIZED <==> Done(s'.reason, s'.markedAt, s.notifyRSeq, s.pending, now))
    && s'.state == (if s'.reason == DEAD && s'.leaveState != FINALIZED then SPECTATING else LEFT)
    && forall n :: n in s'.pending <==> n in s.pending && n == s.notifyRSeq != 0 && s'.leaveState != FINALIZED
  }

  lemma SettledIsLeft(m: Session, hasBody: bool, now: int)
    requires m.leaveState == PENDING && !m.leftNotified && m.reports == []
    ensures Left(m, Settled(Cleared(m), hasBody, now), hasBody, now)
  {}

  /** What leaving does: Main is told the reason, with the items only after a recall; the dead and the cut off lose
      their items with their object; nothing but the notification stays in the resend queue; the recall ends; and the
      session is finalized in the same pass if there is nothing to wait for. */
  lemma LeavingSession(s: Session, hasBody: bool, ends: bool, dies: bool, now: int, clock: int, nowMs: u32)
    requires SessionOk(s) && InRoom(s)
    ensures var s' := PassSession(s, hasBody, ends, dies, now, clock, nowMs);
      s'.leaveState != STAYING ==> Left(s, s', hasBody, now)
  {
    if s.leaveState == STAYING {
      MarkedStaying(s, ends, dies, clock, nowMs);
    } else {
      MarkedPending(s, ends, dies, clock, nowMs);
    }
    var m := Marked(s, ends, dies, clock, nowMs);
    if m.leaveState == PENDING { SettledIsLeft(m, hasBody, now); }
  }

  /** Who has been detached waits, and then is finalized: the queue is emptied and nothing else changes. */
  lemma DetachedSession(s: Session, hasBody: bool, ends: bool, dies: bool, now: int, clock: int, nowMs: u32)
    requires SessionOk(s) && !InRoom(s)
    ensures var s' := PassSession(s, hasBody, ends, dies, now, clock, nowMs);
      if s.leaveState == DETACHED && Done(s.reason, s.markedAt, s.notifyRSeq, s.pending, now)
      then s' == s.(leaveState := FINALIZED, state := LEFT, pending := {}) else s' == s
  {}

  // ---- One pass over the whole room ----

  /** The session is in the room before and not after. */
  predicate Leaves(r: Room, p: Room, i: int) {
    i in r.sessions && i in p.sessions && InRoom(r.sessions[i]) && !InRoom(p.sessions[i])
  }

  lemma PassOf(r: Room, now: int, clock: int, nowMs: u32, i: int)
    requires KeysAgree(r) && i in r.sessions
    ensures var p := Next(r, Pass(now, clock, nowMs));
      && i in p.sessions
      && p.sessions[i] == PassSession(r.sessions[i], r.hold.objects[i] in r.players, RoomEnds(r, now), Dies(r, i), now,
          clock, nowMs)
  {
    PassIsPointwise(r, now, clock, nowMs, i);
    NextPass(r, Pass(now, clock, nowMs));
  }

  /** A pass moves a session that stays exactly if the room ends, its object dies or it has fallen silent. */
  lemma PassMovesIff(r: Room, now: int, clock: int, nowMs: u32, i: int)
    requires KeysAgree(r) && i in r.sessions && r.sessions[i].leaveState == STAYING
    ensures i in Next(r, Pass(now, clock, nowMs)).sessions
    ensures var s, s' := r.sessions[i], Next(r, Pass(now, clock, nowMs)).sessions[i];
      && (s'.leaveState != STAYING <==> RoomEnds(r, now) || Dies(r, i) || Silent(s, nowMs))
      && (s'.leaveState != STAYING ==>
        s'.reason == (if RoomEnds(r, now) || Dies(r, i) then DEAD else DISCONNECTED) && s'.markedAt == clock)
      && (s'.leaveState == STAYING ==> s' == s)
  {
    PassOf(r, now, clock, nowMs, i);
    StayingSession(r.sessions[i], r.hold.objects[i] in r.players, RoomEnds(r, now), Dies(r, i), now, clock, nowMs);
  }

  /** What a pass does to a session it detaches. */
  lemma PassLeaves(r: Room, now: int, clock: int, nowMs: u32, i: int)
    requires KeysAgree(r) && i in r.sessions && SessionOk(r.sessions[i]) && InRoom(r.sessions[i])
    ensures i in Next(r, Pass(now, clock, nowMs)).sessions
    ensures var s, s' := r.sessions[i], Next(r, Pass(now, clock, nowMs)).sessions[i];
      && (s'.leaveState != STAYING ==> Left(s, s', r.hold.objects[i] in r.players, now))
      && (s.leaveState == PENDING ==>
        && s'.leaveState != STAYING
        && (if s.reason == DISCONNECTED && (RoomEnds(r, now) || Dies(r, i))
            then s'.reason == DEAD && s'.markedAt == clock
            else s'.reason == s.reason && s'.markedAt == s.markedAt))
  {
    var s, hasBody := r.sessions[i], r.hold.objects[i] in r.players;
    PassOf(r, now, clock, nowMs, i);
    LeavingSession(s, hasBody, RoomEnds(r, now), Dies(r, i), now, clock, nowMs);
    if s.leaveState == PENDING { PendingSession(s, hasBody, RoomEnds(r, now), Dies(r, i), now, clock, nowMs); }
  }

  /** A pass finalizes whom it finds detached once there is nothing left to wait for, and else leaves it alone. */
  lemma PassFinalizesIff(r: Room, now: int, clock: int, nowMs: u32, i: int)
    requires KeysAgree(r) && i in r.sessions && SessionOk(r.sessions[i]) && !InRoom(r.sessions[i])
    ensures i in Next(r, Pass(now, clock, nowMs)).sessions
    ensures var s, s' := r.sessions[i], Next(r, Pass(now, clock, nowMs)).sessions[i];
      if s.leaveState == DETACHED && Done(s.reason, s.markedAt, s.notifyRSeq, s.pending, now)
      then s' == s.(leaveState := FINALIZED, state := LEFT, pending := {}) else s' == s
  {
    PassOf(r, now, clock, nowMs, i);
    DetachedSession(r.sessions[i], r.hold.objects[i] in r.players, RoomEnds(r, now), Dies(r, i), now, clock, nowMs);
  }

  lemma GoesIff(s: Session, hasBody: bool, ends: bool, dies: bool, now: int, clock: int, nowMs: u32)
    ensures var s' := PassSession(s, hasBody, ends, dies, now, clock, nowMs);
      Marked(s, ends, dies, clock, nowMs).leaveState == PENDING <==> InRoom(s) && !InRoom(s')
  {
    if s.leaveState == STAYING {
      MarkedStaying(s, ends, dies, clock, nowMs);
      StayingSession(s, hasBody, ends, dies, now, clock, nowMs);
    } else if s.leaveState == PENDING {
      MarkedPending(s, ends, dies, clock, nowMs);
      PendingSession(s, hasBody, ends, dies, now, clock, nowMs);
    } else {
      MarkedLeft(s, ends, dies, clock, nowMs);
    }
  }

  lemma GoneHas(r: Room, now: int, clock: int, nowMs: u32, i: int)
    requires KeysAgree(r) && i in r.sessions
    ensures i in Gone(MarkAll(r, now, clock, nowMs), r.sessions.Keys)
      <==> Marked(r.sessions[i], RoomEnds(r, now), Dies(r, i), clock, nowMs).leaveState == PENDING
  {
    var m := MarkAll(r, now, clock, nowMs);
    assert m.sessions[i] == Cleared(Marked(r.sessions[i], RoomEnds(r, now), Dies(r, i), clock, nowMs));
  }

  lemma GoneIffLeaves(r: Room, now: int, clock: int, nowMs: u32, i: int)
    requires KeysAgree(r)
    ensures i in Gone(MarkAll(r, now, clock, nowMs), r.sessions.Keys)
      <==> Leaves(r, Next(r, Pass(now, clock, nowMs)), i)
  {
    if i in r.sessions {
      GoneHas(r, now, clock, nowMs, i);
      PassOf(r, now, clock, nowMs, i);
      GoesIff(r.sessions[i], r.hold.objects[i] in r.players, RoomEnds(r, now), Dies(r, i), now, clock, nowMs);
    }
  }

  lemma MarkedLeft(s: Session, ends: bool, dies: bool, clock: int, nowMs: u32)
    requires !InRoom(s)
    ensures Marked(s, ends, dies, clock, nowMs) == s
  {}

  /** The parts of a pass that concern the room, once it is known who goes. */
  lemma PassRoom(r: Room, now: int, clock: int, nowMs: u32, gone: set<int>)
    requires KeysAgree(r) && gone == Gone(MarkAll(r, now, clock, nowMs), r.sessions.Keys)
    ensures var p := Next(r, Pass(now, clock, nowMs));
      && p.hold == O.Leave(r.hold, gone) && p.players == r.players - Bodies(r, gone)
      && p.npcs == ReleaseNpcs(r.npcs, Bodies(r, gone)) && p.told == TellReleased(r.npcs, r.told, Bodies(r, gone))
  {
    NextPass(r, Pass(now, clock, nowMs));
  }

  /** The session leaves with b as its player object. */
  ghost predicate LeavesAs(r: Room, p: Room, i: int, b: int)
    requires KeysAgree(r)
  {
    Leaves(r, p, i) && b != -1 && r.hold.objects[i] == b
  }

  lemma BodiesIff(r: Room, p: Room, gone: set<int>, b: int)
    requires KeysAgree(r) && forall i: int :: i in gone <==> Leaves(r, p, i)
    ensures b in Bodies(r, gone) <==> exists i :: LeavesAs(r, p, i, b)
  {
    if b in Bodies(r, gone) {
      var i :| i in gone && r.hold.objects[i] == b;
      assert LeavesAs(r, p, i, b);
    }
    if i :| LeavesAs(r, p, i, b) { assert i in gone && r.hold.objects[i] == b; }
  }

  lemma PassGone(r: Room, now: int, clock: int, nowMs: u32) returns (gone: set<int>)
    requires KeysAgree(r)
    ensures gone == Gone(MarkAll(r, now, clock, nowMs), r.sessions.Keys)
    ensures forall i: int :: i in gone <==> Leaves(r, Next(r, Pass(now, clock, nowMs)), i)
  {
    gone := Gone(MarkAll(r, now, clock, nowMs), r.sessions.Keys);
    forall i: int ensures i in gone <==> Leaves(r, Next(r, Pass(now, clock, nowMs)), i) {
      GoneIffLeaves(r, now, clock, nowMs, i);
    }
  }

  /** Who leaves has no player object and no open container any more; everybody else keeps both. */
  lemma PassHands(r: Room, now: int, clock: int, nowMs: u32, i: int)
    requires KeysAgree(r) && i in r.sessions
    ensures var p := Next(r, Pass(now, clock, nowMs));
      && i in p.hold.objects && i in p.hold.open
      && (if Leaves(r, p, i) then p.hold.objects[i] == -1 && p.hold.open[i] == -1
          else p.hold.objects[i] == r.hold.objects[i] && p.hold.open[i] == r.hold.open[i])
  {
    var gone := PassGone(r, now, clock, nowMs);
    PassRoom(r, now, clock, nowMs, gone);
  }

  /** Exactly the objects of those who leave are taken out of the room; the others live on, or die, as before. */
  lemma PassBodies(r: Room, now: int, clock: int, nowMs: u32, b: int)
    requires KeysAgree(r)
    ensures var p := Next(r, Pass(now, clock, nowMs));
      && (b in p.players <==> b in r.players && !exists i :: LeavesAs(r, p, i, b))
      && (b in p.players ==> p.players[b] == r.players[b])
  {
    var gone := PassGone(r, now, clock, nowMs);
    PassRoom(r, now, clock, nowMs, gone);
    BodiesIff(r, Next(r, Pass(now, clock, nowMs)), gone, b);
  }

  /** Exactly the NPCs driven by those who leave are let go, and everybody is told; the others are driven on. */
  lemma PassNpcs(r: Room, now: int, clock: int, nowMs: u32, n: int)
    requires KeysAgree(r) && n in r.npcs
    ensures var p, npc := Next(r, Pass(now, clock, nowMs)), r.npcs[n];
      && n in p.npcs
      && (if exists i :: LeavesAs(r, p, i, npc.target)
          then p.npcs[n] == npc.(aggro := npc.minAggro, target := -1) && n in p.told && p.told[n] == -1
          else p.npcs[n] == npc && (n in p.told <==> n in r.told) && (n in p.told ==> p.told[n] == r.told[n]))
  {
    var gone := PassGone(r, now, clock, nowMs);
    PassRoom(r, now, clock, nowMs, gone);
    BodiesIff(r, Next(r, Pass(now, clock, nowMs)), gone, r.npcs[n].target);
    ReleasedNpc(r.npcs, r.told, Bodies(r, gone), n);
  }

  lemma ReleasedNpc(npcs: map<int, Npc>, told: map<int, int>, bodies: set<int>, n: int)
    requires n in npcs
    ensures var (npcs', told') := (ReleaseNpcs(npcs, bodies), TellReleased(npcs, told, bodies));
      if npcs[n].target in bodies
      then n in npcs' && npcs'[n] == npcs[n].(aggro := npcs[n].minAggro, target := -1) && n in told' && told'[n] == -1
      else n in npcs' && npcs'[n] == npcs[n] && (n in told' <==> n in told) && (n in told ==> told'[n] == told[n])
  {}

  /** Exactly the containers that somebody who leaves has open, and that name its object, are freed. */
  lemma PassContainers(r: Room, now: int, clock: int, nowMs: u32, c: int)
    requires KeysAgree(r) && c in r.hold.holders && c != -1
    ensures var p := Next(r, Pass(now, clock, nowMs));
      && c in p.hold.holders
      && p.hold.holders[c] == if exists i :: LeavesWith(r, p, i, c) then -1 else r.hold.holders[c]
  {
    var gone := PassGone(r, now, clock, nowMs);
    var p := Next(r, Pass(now, clock, nowMs));
    PassRoom(r, now, clock, nowMs, gone);
    FreedIff(r, p, gone, c);
  }

  ghost predicate LeavesWith(r: Room, p: Room, i: int, c: int)
    requires KeysAgree(r) && c in r.hold.holders
  {
    Leaves(r, p, i) && r.hold.open[i] == c && r.hold.holders[c] == r.hold.objects[i]
  }

  lemma FreedIff(r: Room, p: Room, gone: set<int>, c: int)
    requires KeysAgree(r) && c in r.hold.holders && c != -1
    requires forall i: int :: i in gone <==> Leaves(r, p, i)
    ensures O.LeavesFree(r.hold, gone, c) <==> exists i :: LeavesWith(r, p, i, c)
  {
    if i :| LeavesWith(r, p, i, c) { assert i in gone; }
    if O.LeavesFree(r.hold, gone, c) {
      var i :| i in gone && i in r.hold.open && i in r.hold.objects && r.hold.open[i] == c
        && r.hold.holders[c] == r.hold.objects[i];
      assert LeavesWith(r, p, i, c);
    }
  }

  /** The rest of the room: the lifetime is noticed once, and destruction is asked for in the first pass that
      leaves everybody finalized. */
  lemma PassEnds(r: Room, now: int, clock: int, nowMs: u32)
    requires KeysAgree(r)
    ensures var p := Next(r, Pass(now, clock, nowMs));
      var all := forall i <- p.sessions :: p.sessions[i].leaveState == FINALIZED;
      && p.createdAt == r.createdAt && p.nextObjectId == r.nextObjectId
      && (p.lifetimeExpired <==> r.lifetimeExpired || RoomEnds(r, now))
      && (p.allLeftReported <==> r.allLeftReported || all)
      && p.destroyRequests == r.destroyRequests + if all && !r.allLeftReported then 1 else 0
  {
    NextPass(r, Pass(now, clock, nowMs));
  }

  // ---- Containers ----

  predicate Active(r: Room, id: int) {
    id in r.sessions && (r.sessions[id].state == CONNECTED || r.sessions[id].state == INPLAY)
  }

  predicate Reaches(r: Room, near: set<(int, int)>, b: int, c: int) { b in r.players && (b, c) in near }

  /** The opener is active, has an object within reach, and the container is free, its own already, or held by an
      object out of reach. */
  predicate MayOpen(r: Room, id: int, c: int, near: set<(int, int)>)
    requires KeysAgree(r)
  {
    && Active(r, id) && c in r.hold.holders && r.hold.objects[id] != -1
    && Reaches(r, near, r.hold.objects[id], c)
    && (r.hold.holders[c] == -1 || r.hold.holders[c] == r.hold.objects[id] || !Reaches(r, near, r.hold.holders[c], c))
  }

  /** Opening: the container is the opener's and the opener's old one is free; whose object held it has nothing
      open any more; everybody and everything else is left alone.  Refused, it changes nothing. */
  lemma OpenEffect(r: Room, id: int, c: int, near: set<(int, int)>)
    requires KeysAgree(r)
    ensures var p := Next(r, Open(id, c, near)); var me := if id in r.sessions then r.hold.objects[id] else -1;
      && (!MayOpen(r, id, c, near) ==> p == r)
      && (MayOpen(r, id, c, near) ==>
        && p == r.(hold := p.hold) && p.hold.objects == r.hold.objects && p.hold.holders.Keys == r.hold.holders.Keys
        && p.hold.open[id] == c && p.hold.holders[c] == me
        && (forall j <- r.sessions | j != id ::
          p.hold.open[j] == if r.hold.holders[c] !in {-1, me} && r.hold.objects[j] == r.hold.holders[c] then -1
            else r.hold.open[j])
        && (forall k <- r.hold.holders | k != c ::
          p.hold.holders[k] == if r.hold.open[id] == k != -1 && r.hold.holders[k] == me then -1 else r.hold.holders[k]))
  {
    OpensIff(r, id, c, near);
    if MayOpen(r, id, c, near) { TakeEffect(r.hold, id, c); }
  }

  lemma OpensIff(r: Room, id: int, c: int, near: set<(int, int)>)
    requires KeysAgree(r)
    ensures CanOpen(r, id, c, near) <==> MayOpen(r, id, c, near)
    ensures Next(r, Open(id, c, near)) == if CanOpen(r, id, c, near) then r.(hold := O.Take(r.hold, id, c)) else r
  {}

  lemma TakeEffect(s: O.State, id: int, c: int)
    requires id in s.open && id in s.objects && c in s.holders && s.open.Keys == s.objects.Keys
    ensures var t, me := O.Take(s, id, c), s.objects[id];
      && t.objects == s.objects && t.holders.Keys == s.holders.Keys && t.open.Keys == s.open.Keys
      && t.open[id] == c && t.holders[c] == me
      && (forall j <- s.open | j != id ::
        t.open[j] == if s.holders[c] !in {-1, me} && s.objects[j] == s.holders[c] then -1 else s.open[j])
      && (forall k <- s.holders | k != c ::
        t.holders[k] == if s.open[id] == k != -1 && s.holders[k] == me then -1 else s.holders[k])
  {}

  /** Closing: the session has nothing open, and the container is free if its object held it. */
  lemma CloseEffect(r: Room, id: int)
    requires KeysAgree(r)
    ensures var p := Next(r, Close(id));
      && (!(Active(r, id) && r.hold.open[id] != -1) ==> p == r)
      && (Active(r, id) && r.hold.open[id] != -1 ==>
        && p == r.(hold := p.hold) && p.hold.objects == r.hold.objects && p.hold.holders.Keys == r.hold.holders.Keys
        && (forall j <- r.sessions :: p.hold.open[j] == if j == id then -1 else r.hold.open[j])
        && (forall k <- r.hold.holders ::
          p.hold.holders[k] == if r.hold.open[id] == k && r.hold.holders[k] == r.hold.objects[id] then -1
            else r.hold.holders[k]))
  {}

  /** Somebody near a container keeps it: it changes hands only in a pass its holder leaves in, by an open or a close
      of the holder's own, or by an open that finds the holder out of reach. */
  lemma HolderLosesOnly(r: Room, e: Event, c: int)
    requires RoomOk(r) && c in r.hold.holders && r.hold.holders[c] != -1
    ensures c in Next(r, e).hold.holders
    ensures var p, h := Next(r, e), r.hold.holders[c];
      p.hold.holders[c] != h ==>
        || (e.Open? && e.c == c && !Reaches(r, e.near, h, c))
        || ((e.Open? || e.Close?) && e.id in r.sessions && r.hold.objects[e.id] == h && r.hold.open[e.id] == c)
        || (e.Pass? && exists i :: LeavesWith(r, p, i, c))
  {
    match e
    case Open(id, d, near) => OpenEffect(r, id, d, near);
    case Close(id) => CloseEffect(r, id);
    case Pass(now, clock, nowMs) => PassContainers(r, now, clock, nowMs, c);
    case _ => OthersKeepHolder(r, e, c);
  }

  lemma OthersKeepHolder(r: Room, e: Event, c: int)
    requires RoomOk(r) && c in r.hold.holders && !e.Open? && !e.Close? && !e.Pass?
    ensures c in Next(r, e).hold.holders && Next(r, e).hold.holders[c] == r.hold.holders[c]
  {
    if !TouchesOneSession(e) {
      match e
      case SpawnMe(_) =>
      case Aggro(_, _, _) =>
      case Authority(_, _, _) =>
      case NpcDies(_) =>
      case PlayerDies(_) =>
      case SpawnContainer =>
    }
  }

  // ---- NPCs ----

  predicate MayBid(r: Room, id: int, n: int)
    requires KeysAgree(r)
  {
    Active(r, id) && r.hold.objects[id] != -1 && n in r.npcs
  }

  function Within(x: int, lo: int, hi: int): int { if x < lo then lo else if x > hi then hi else x }

  /** Only NPC n can have changed, and its authority has been announced if it has. */
  ghost predicate OnlyNpc(r: Room, p: Room, n: int, npc: Npc)
    requires n in r.npcs
  {
    && p == r.(npcs := p.npcs, told := p.told) && p.npcs.Keys == r.npcs.Keys && p.npcs[n] == npc
    && (forall k <- r.npcs | k != n :: p.npcs[k] == r.npcs[k])
    && (npc.target != r.npcs[n].target ==> n in p.told && p.told[n] == npc.target)
    && (npc.target == r.npcs[n].target ==> (n in p.told <==> n in r.told) && (n in r.told ==> p.told[n] == r.told[n]))
    && (forall k: int | k != n :: k in p.told <==> k in r.told)
    && (forall k <- r.told | k != n :: p.told[k] == r.told[k])
  }

  /** A bid wins exactly if, cut to the NPC's range, it exceeds its aggro; then the bidder drives it at that aggro.
      A lost bid changes nothing. */
  lemma BidEffect(r: Room, id: int, n: int, aggro: int)
    requires KeysAgree(r) && (n in r.npcs ==> NpcOk(r.npcs[n]))
    ensures var p := Next(r, Authority(id, n, aggro));
      if MayBid(r, id, n) && Within(aggro, r.npcs[n].minAggro, r.npcs[n].maxAggro) > r.npcs[n].aggro
      then OnlyNpc(r, p, n,
        r.npcs[n].(aggro := Within(aggro, r.npcs[n].minAggro, r.npcs[n].maxAggro), target := r.hold.objects[id]))
      else p == r
  {}

  /** Only who drives an NPC changes its aggro, up or down; naming its minimum or less lets it go. */
  lemma AggroEffect(r: Room, id: int, n: int, aggro: int)
    requires KeysAgree(r) && (n in r.npcs ==> NpcOk(r.npcs[n]))
    ensures var p := Next(r, Aggro(id, n, aggro));
      if MayBid(r, id, n) && r.npcs[n].target == r.hold.objects[id]
      then OnlyNpc(r, p, n,
        if Within(aggro, r.npcs[n].minAggro, r.npcs[n].maxAggro) == r.npcs[n].minAggro
        then r.npcs[n].(aggro := r.npcs[n].minAggro, target := -1)
        else r.npcs[n].(aggro := Within(aggro, r.npcs[n].minAggro, r.npcs[n].maxAggro)))
      else p == r
  {}

  // ---- Single sessions ----

  /** What one session's own messages and timers do is done to that session alone. */
  lemma OnlyItsOwn(r: Room, e: Event, j: int)
    requires KeysAgree(r) && TouchesOneSession(e) && j in r.sessions
    ensures var p := Next(r, e);
      && p == r.(sessions := p.sessions) && p.sessions.Keys == r.sessions.Keys
      && (j != e.id ==> p.sessions[j] == r.sessions[j])
  {}

  /** A recall starts exactly if none is under way and the player is active, staying, in the room and in the zone; it
      starts without passes, under a number no earlier timer entry carries. */
  lemma RecallStartsIff(r: Room, id: int, spot: nat, inZone: bool)
    requires KeysAgree(r) && id in r.sessions
    ensures id in Next(r, RequestRecall(id, spot, inZone)).sessions
    ensures var s, s' := r.sessions[id], Next(r, RequestRecall(id, spot, inZone)).sessions[id];
      if !s.recall.active && Active(r, id) && s.leaveState == STAYING && r.hold.objects[id] != -1
        && r.hold.objects[id] in r.players && inZone
      then s' == s.(recall := Recall(true, s.recall.generation + 1, 0, spot)) else s' == s
  {}

  /** A timer entry is stale unless it carries the number of the recall under way. */
  predicate Current(s: Session, generation: nat) { s.recall.active && s.recall.generation == generation }

  /** The check a recall must pass each time: in play and staying, alive, in the zone. */
  predicate Passes(r: Room, id: int, inZone: bool)
    requires KeysAgree(r) && id in r.sessions
  {
    && r.sessions[id].state == INPLAY && r.sessions[id].leaveState == STAYING && inZone
    && r.hold.objects[id] != -1 && r.hold.objects[id] in r.players && !r.players[r.hold.objects[id]]
  }

  /** A stale entry changes nothing; a failed check ends the recall; the fifth passed one in a row sends the player
      home, and an earlier one is counted. */
  lemma RecallTickEffect(r: Room, id: int, generation: nat, inZone: bool, notifyRSeq: u32, clock: int)
    requires KeysAgree(r) && id in r.sessions
    ensures id in Next(r, RecallTick(id, generation, inZone, notifyRSeq, clock)).sessions
    ensures var s, s' := r.sessions[id], Next(r, RecallTick(id, generation, inZone, notifyRSeq, clock)).sessions[id];
      if !Current(s, generation) then s' == s
      else if !Passes(r, id, inZone) then
        s' == s.(recall := s.recall.(active := false, generation := s.recall.generation + 1))
      else if s.recall.passes + 1 < 5 then s' == s.(recall := s.recall.(passes := s.recall.passes + 1))
      else
        s' == s.(leaveState := PENDING, reason := RECALLED, markedAt := clock, state := LEFT,
                 notifyRSeq := if notifyRSeq != 0 then notifyRSeq else s.notifyRSeq,
                 recall := Recall(false, s.recall.generation + 1, s.recall.passes + 1, s.recall.spot))
  {}

  /** Nothing but the end of a recall or a leave pass makes a session leave. */
  lemma OnlyRecallOrPassMoves(r: Room, e: Event, i: int)
    requires KeysAgree(r) && i in r.sessions && i in Next(r, e).sessions
    requires Next(r, e).sessions[i].leaveState != r.sessions[i].leaveState
    ensures e.Pass? || (e.RecallTick? && e.id == i && Current(r.sessions[i], e.generation) && Passes(r, i, e.inZone)
        && r.sessions[i].recall.passes >= 4)
  {
    match e
    case Pass(_, _, _) =>
    case RecallTick(id, generation, inZone, notifyRSeq, clock) =>
      OnlyItsOwn(r, e, i);
      RecallTickEffect(r, e.id, generation, inZone, notifyRSeq, clock);
    case _ => OthersStay(r, e, i);
  }

  lemma OthersStay(r: Room, e: Event, i: int)
    requires KeysAgree(r) && i in r.sessions && !e.Pass? && !e.RecallTick?
    ensures i in Next(r, e).sessions && Next(r, e).sessions[i].leaveState == r.sessions[i].leaveState
  {
    if !TouchesOneSession(e) {
      OthersKeepSessions(r, e);
    } else if e.id in r.sessions {
      OnlyItsOwn(r, e, i);
      StaysPut(r.sessions[e.id], e, HasBody(r, e.id), HasBody(r, e.id) && !DeathPending(r, e.id));
    }
  }

  lemma StaysPut(s: Session, e: Event, hasBody: bool, alive: bool)
    requires !e.RecallTick?
    ensures Touched(s, e, hasBody, alive).leaveState == s.leaveState
  {}

  // ---- Objects ----

  /** Spawning gives an active session, and nobody else, a new live object. */
  lemma SpawnEffect(r: Room, id: int)
    requires KeysAgree(r)
    ensures var p := Next(r, SpawnMe(id));
      && (!Active(r, id) ==> p == r)
      && (Active(r, id) ==>
        && p == r.(hold := p.hold, players := p.players, nextObjectId := r.nextObjectId + 1)
        && p.hold == r.hold.(objects := r.hold.objects[id := r.nextObjectId])
        && p.players == r.players[r.nextObjectId := false])
  {}

  /** A dead player's object waits for the next pass; a dead NPC is gone. */
  lemma DeathEffect(r: Room, b: int)
    requires KeysAgree(r)
    ensures var p := Next(r, PlayerDies(b));
      && p == r.(players := p.players)
      && (forall x: int :: x in p.players <==> x in r.players)
      && forall x <- r.players :: p.players[x] == (x == b || r.players[x])
    ensures var q := Next(r, NpcDies(b));
      && q == r.(npcs := q.npcs, told := q.told)
      && (forall n: int :: (n in q.npcs <==> n in r.npcs && n != b) && (n in q.told <==> n in r.told && n != b))
      && (forall n <- q.npcs :: q.npcs[n] == r.npcs[n]) && forall n <- q.told :: q.told[n] == r.told[n]
  {}
}
