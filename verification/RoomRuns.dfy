/** Every run of a room: the events that reach it, the invariant they keep, and what follows over
    whole runs. */
module RoomRuns {
  import opened UInt32
  import opened SessionModel
  import opened HostileNpc
  import opened RoomModel
  import O = Occupancy

  datatype Event =
    | ChannelOpen(id: int)
    | LoadingComplete(id: int)
    | SpawnMe(id: int)
    | Echo(id: int, ts: u32)
    | Channel(id: int, pending: set<u32>)
    | UseItems(id: int, items: multiset<int>)
    | Open(id: int, c: int, near: set<(int, int)>)
    | Close(id: int)
    | Aggro(id: int, n: int, aggro: int)
    | Authority(id: int, n: int, aggro: int)
    | NpcDies(n: int)
    | PlayerDies(player: int)
    | DeathNotice(id: int, seqNum: u32)
    | RequestRecall(id: int, spot: nat, inZone: bool)
    | RecallTick(id: int, generation: nat, inZone: bool, notifyRSeq: u32, clock: int)
    | Pass(now: int, clock: int, nowMs: u32)
    | SpawnContainer

  function RequestRecallOf(s: Session, hasBody: bool, spot: nat, inZone: bool): Session {
    if IsActiveState(s) && s.leaveState == STAYING && hasBody && inZone
    then s.(recall := BeginRecall(s.recall, spot)) else s
  }

  /** The timer callback: alive says whether the player object is there and alive. */
  function RecallTickOf(s: Session, alive: bool, generation: nat, inZone: bool, notifyRSeq: u32, clock: int): Session {
    if !s.recall.active || s.recall.generation != generation then s
    else if s.state != INPLAY || s.leaveState != STAYING || !alive || !inZone then s.(recall := EndRecall(s.recall))
    else
      var passes := s.recall.passes + 1;
      if passes < RECALL_REQUIRED_PASS_COUNT then s.(recall := s.recall.(passes := passes))
      else MarkLeaving(s.(recall := EndRecall(s.recall.(passes := passes))), RECALLED, notifyRSeq, clock)
  }

  /** The handlers that touch one session and nothing else of the room. */
  function Touched(s: Session, e: Event, hasBody: bool, alive: bool): Session {
    match e
    case ChannelOpen(_) => if s.state == INIT then s.(state := CONNECTED) else s
    case LoadingComplete(_) => if s.state == CONNECTED then s.(state := INPLAY) else s
    case Echo(_, ts) => s.(lastEchoTs := ts)
    case Channel(_, pending) => s.(pending := pending)
    case UseItems(_, items) => if IsActiveState(s) then s.(items := items) else s
    case DeathNotice(_, seqNum) => if IsActiveState(s) then s.(notifyRSeq := seqNum) else s
    case RequestRecall(_, spot, inZone) => RequestRecallOf(s, hasBody, spot, inZone)
    case RecallTick(_, generation, inZone, notifyRSeq, clock) =>
        RecallTickOf(s, alive, generation, inZone, notifyRSeq, clock)
    case _ => s
  }

  predicate TouchesOneSession(e: Event) {
    e.ChannelOpen? || e.LoadingComplete? || e.Echo? || e.Channel? || e.UseItems? || e.DeathNotice?
    || e.RequestRecall? || e.RecallTick?
  }

  predicate HasBody(r: Room, id: int)
    requires KeysAgree(r) && id in r.sessions
  {
    r.hold.objects[id] != NOBODY && r.hold.objects[id] in r.players
  }

  function TouchSession(r: Room, e: Event): Room
    requires KeysAgree(r) && TouchesOneSession(e) && e.id in r.sessions
  {
    var alive := HasBody(r, e.id) && !DeathPending(r, e.id);
    r.(sessions := r.sessions[e.id := Touched(r.sessions[e.id], e, HasBody(r, e.id), alive)])
  }

  function Spawn(r: Room, id: int): Room
    requires KeysAgree(r)
  {
    if id in r.sessions && IsActiveState(r.sessions[id]) then
      r.(hold := r.hold.(objects := r.hold.objects[id := r.nextObjectId]),
         players := r.players[r.nextObjectId := false],
         nextObjectId := r.nextObjectId + 1)
    else r
  }

  /** A container for a dead player's things; players, NPCs and containers share one counter of object ids. */
  function SpawnLoot(r: Room): Room {
    r.(hold := r.hold.(holders := r.hold.holders[r.nextObjectId := NOBODY]), nextObjectId := r.nextObjectId + 1)
  }

  function Next(r: Room, e: Event): (r': Room)
    requires KeysAgree(r)
    ensures KeysAgree(r')
  {
    if TouchesOneSession(e) then
      if e.id in r.sessions then TouchSession(r, e) else r
    else
      match e
      case SpawnMe(id) => Spawn(r, id)
      case Open(id, c, near) => OpenContainer(r, id, c, near)
      case Close(id) => CloseContainer(r, id)
      case Aggro(id, n, aggro) => RequestAggro(r, id, n, aggro)
      case Authority(id, n, aggro) => RequestAuthority(r, id, n, aggro)
      case NpcDies(n) => r.(npcs := r.npcs - {n}, told := r.told - {n})
      case PlayerDies(p) => if p in r.players then r.(players := r.players[p := true]) else r
      case Pass(now, clock, nowMs) => ProcessLeaves(r, now, clock, nowMs)
      case SpawnContainer => SpawnLoot(r)
      case _ => r
  }

  // ---- The invariant ----

  function Owned(objects: map<int, int>): set<int> {
    set i | i in objects && objects[i] != NOBODY :: objects[i]
  }

  ghost predicate SessionsOk(sessions: map<int, Session>) {
    forall i <- sessions :: SessionOk(sessions[i])
  }

  /** Object ids are older than the next one, and a session that left has none. */
  ghost predicate ObjectsOk(r: Room) {
    && KeysAgree(r)
    && (forall c <- r.hold.holders :: c < r.nextObjectId)
    && (forall i <- r.sessions :: -1 <= r.hold.objects[i] < r.nextObjectId)
    && (forall i <- r.sessions | HasLeft(r.sessions[i]) :: r.hold.objects[i] == NOBODY)
  }

  /** Every target is a session's object, and the last broadcast names the current target. */
  ghost predicate NpcsOk(npcs: map<int, Npc>, told: map<int, int>, owned: set<int>) {
    && (forall n <- npcs :: NpcOk(npcs[n]) && (npcs[n].target != NO_TARGET ==> npcs[n].target in owned))
    && (forall n <- told :: n in npcs && told[n] == npcs[n].target)
    && (forall n <- npcs | n !in told :: npcs[n].target == NO_TARGET)
  }

  ghost predicate LifeOk(r: Room) {
    && (r.lifetimeExpired ==> forall i <- r.sessions :: HasLeft(r.sessions[i]))
    && (r.allLeftReported ==> AllFinalized(r))
    && r.destroyRequests == (if r.allLeftReported then 1 else 0)
  }

  ghost predicate RoomOk(r: Room) {
    SessionsOk(r.sessions) && ObjectsOk(r) && O.Matched(r.hold) && NpcsOk(r.npcs, r.told, Owned(r.hold.objects))
        && LifeOk(r)
  }

  /** No session runs backwards between the two rooms. */
  ghost predicate Forward(r: Room, r': Room) {
    r.sessions.Keys == r'.sessions.Keys && forall i <- r.sessions :: MovesForward(r.sessions[i], r'.sessions[i])
  }

  /** The old object, if there is one, has no container open and drives no NPC. */
  predicate LeavesNothing(r: Room, id: int)
    requires KeysAgree(r) && id in r.sessions
  {
    r.hold.open[id] == NO_CONTAINER
    && forall n <- r.npcs :: r.npcs[n].target == NO_TARGET || r.npcs[n].target != r.hold.objects[id]
  }

  /** A spawn replaces no object that has or drives anything; the source does not check it. */
  predicate SpawnsHarmlessly(r: Room, e: Event)
    requires KeysAgree(r)
  {
    e.SpawnMe? && e.id in r.sessions && IsActiveState(r.sessions[e.id]) ==> LeavesNothing(r, e.id)
  }

  // ---- Each event keeps it ----

  lemma TouchedMovesForward(s: Session, e: Event, hasBody: bool, alive: bool)
    requires SessionOk(s)
    ensures var s' := Touched(s, e, hasBody, alive);
      SessionOk(s') && MovesForward(s, s') && (HasLeft(s) <==> HasLeft(s'))
          && (s.leaveState == FINALIZED <==> s'.leaveState == FINALIZED)
  {}

  lemma ReplaceKeeps(r: Room, id: int, s: Session)
    requires RoomOk(r) && id in r.sessions && SessionOk(s) && MovesForward(r.sessions[id], s)
    requires HasLeft(r.sessions[id]) <==> HasLeft(s)
    requires r.sessions[id].leaveState == FINALIZED <==> s.leaveState == FINALIZED
    ensures var r' := r.(sessions := r.sessions[id := s]); RoomOk(r') && Forward(r, r')
  {}

  lemma TouchKeeps(r: Room, e: Event)
    requires RoomOk(r) && TouchesOneSession(e) && e.id in r.sessions
    ensures RoomOk(TouchSession(r, e)) && Forward(r, TouchSession(r, e))
  {
    var alive := HasBody(r, e.id) && !DeathPending(r, e.id);
    TouchedMovesForward(r.sessions[e.id], e, HasBody(r, e.id), alive);
    ReplaceKeeps(r, e.id, Touched(r.sessions[e.id], e, HasBody(r, e.id), alive));
  }

  lemma SameSessions(r: Room, r': Room)
    requires SessionsOk(r.sessions) && r'.sessions == r.sessions
    ensures Forward(r, r')
  {}

  /** Only who has what open has changed. */
  lemma HoldKeeps(r: Room, hold: O.State)
    requires RoomOk(r) && O.Matched(hold) && hold.objects == r.hold.objects && hold.holders.Keys == r.hold.holders.Keys
    ensures RoomOk(r.(hold := hold)) && Forward(r, r.(hold := hold))
  {
    SameSessions(r, r.(hold := hold));
  }

  lemma OpenKeeps(r: Room, e: Event)
    requires RoomOk(r) && e.Open?
    ensures RoomOk(Next(r, e)) && Forward(r, Next(r, e))
  {
    if CanOpen(r, e.id, e.c, e.near) {
      O.TakeKeeps(r.hold, e.id, e.c);
      HoldKeeps(r, O.Take(r.hold, e.id, e.c));
    } else {
      SameSessions(r, r);
    }
  }

  lemma CloseKeeps(r: Room, e: Event)
    requires RoomOk(r) && e.Close?
    ensures RoomOk(Next(r, e)) && Forward(r, Next(r, e))
  {
    if e.id in r.sessions {
      O.ReleaseKeeps(r.hold, e.id);
      HoldKeeps(r, O.Release(r.hold, e.id));
    }
    SameSessions(r, r);
  }

  lemma AggroKeeps(r: Room, e: Event)
    requires RoomOk(r) && e.Aggro?
    ensures RoomOk(Next(r, e)) && Forward(r, Next(r, e))
  {
    if MayAsk(r, e.id, e.n) { RequestsKeep(r.npcs[e.n], r.hold.objects[e.id], e.aggro); }
    SameSessions(r, Next(r, e));
  }

  lemma AuthorityKeeps(r: Room, e: Event)
    requires RoomOk(r) && e.Authority?
    ensures RoomOk(Next(r, e)) && Forward(r, Next(r, e))
  {
    if MayAsk(r, e.id, e.n) { RequestsKeep(r.npcs[e.n], r.hold.objects[e.id], e.aggro); }
    SameSessions(r, Next(r, e));
  }

  lemma NpcDeathKeeps(r: Room, e: Event)
    requires RoomOk(r) && e.NpcDies?
    ensures RoomOk(Next(r, e)) && Forward(r, Next(r, e))
  {
    SameSessions(r, Next(r, e));
  }

  lemma PlayerDeathKeeps(r: Room, e: Event)
    requires RoomOk(r) && e.PlayerDies?
    ensures RoomOk(Next(r, e)) && Forward(r, Next(r, e))
  {
    SameSessions(r, Next(r, e));
  }

  lemma HoldersAreOld(r: Room, c: int)
    requires ObjectsOk(r) && O.Matched(r.hold) && c in r.hold.holders
    ensures r.hold.holders[c] < r.nextObjectId
  {
    if r.hold.holders[c] != NOBODY {
      assert O.HasOpener(r.hold, c);
      var i :| O.Opened(r.hold, i, c) && r.hold.objects[i] == r.hold.holders[c];
    }
  }

  /** Spawning keeps the invariant exactly when the session it replaces the object of has no container
      open and its old object drives no NPC. */
  lemma SpawnKeepsIff(r: Room, id: int)
    requires RoomOk(r) && id in r.sessions && IsActiveState(r.sessions[id])
    ensures RoomOk(Spawn(r, id)) <==> LeavesNothing(r, id)
  {
    var r' := Spawn(r, id);
    forall c <- r.hold.holders ensures r.hold.holders[c] < r.nextObjectId { HoldersAreOld(r, c); }
    O.SpawnIff(r.hold, id, r.nextObjectId);
    var owned, owned' := Owned(r.hold.objects), Owned(r'.hold.objects);
    forall p ensures p in owned' <==> p == r.nextObjectId || (p in owned && p != r.hold.objects[id]) {
      if p in owned && p != r.hold.objects[id] {
        var i :| i in r.hold.objects && r.hold.objects[i] == p;
        assert r'.hold.objects[i] == p;
      }
      assert r'.hold.objects[id] == r.nextObjectId;
    }
  }

  /** A session without an object has nothing to leave, so a run in which nobody spawns twice is orderly. */
  lemma FirstSpawnIsHarmless(r: Room, id: int)
    requires RoomOk(r) && id in r.sessions && r.hold.objects[id] == NOBODY
    ensures LeavesNothing(r, id)
  {
    if r.hold.open[id] != NO_CONTAINER { assert O.Opened(r.hold, id, r.hold.open[id]); }
  }

  /** A container nobody holds changes nothing about who has what open. */
  lemma SpawnLootKeeps(r: Room)
    requires RoomOk(r)
    ensures RoomOk(SpawnLoot(r)) && Forward(r, SpawnLoot(r))
  {
    O.FreshContainerKeeps(r.hold, r.nextObjectId);
    SameSessions(r, SpawnLoot(r));
  }

  // ---- The leave pass ----

  lemma MarkedMoves(s: Session, expires: bool, dying: bool, clock: int, nowMs: u32)
    requires SessionOk(s)
    ensures var s' := Cleared(Marked(s, expires, dying, clock, nowMs));
      && SessionOk(s') && MovesForward(s, s')
      && (HasLeft(s) <==> HasLeft(s')) && (s.leaveState == FINALIZED <==> s'.leaveState == FINALIZED)
      && (expires ==> s'.leaveState == PENDING || HasLeft(s'))
  {
    var s1 := if expires then MarkLeaving(s, DEAD, 0, clock) else s;
    var s2 := if dying then MarkLeaving(s1, DEAD, 0, clock) else s1;
    MarkMoves(s, expires, DEAD, clock);
    MarkMoves(s1, dying, DEAD, clock);
    MarkMoves(s2, IsDisconnected(s2, nowMs), DISCONNECTED, clock);
    ClearMoves(Marked(s, expires, dying, clock, nowMs));
    MovesForwardTransitive(s, s1, s2);
    MovesForwardTransitive(s, s2, Marked(s, expires, dying, clock, nowMs));
    MovesForwardTransitive(s, Marked(s, expires, dying, clock, nowMs),
        Cleared(Marked(s, expires, dying, clock, nowMs)));
  }

  lemma MarkMoves(s: Session, marks: bool, reason: LeaveReason, clock: int)
    requires SessionOk(s) && reason != NONE
    ensures var s' := if marks then MarkLeaving(s, reason, 0, clock) else s;
      && SessionOk(s') && MovesForward(s, s')
      && (HasLeft(s) <==> HasLeft(s')) && (s.leaveState == FINALIZED <==> s'.leaveState == FINALIZED)
      && (marks || s.leaveState == PENDING ==> s'.leaveState == PENDING || HasLeft(s'))
  {
    MarkLeavingKeeps(s, reason, 0, clock);
  }

  lemma ClearMoves(s: Session)
    requires SessionOk(s)
    ensures SessionOk(Cleared(s)) && MovesForward(s, Cleared(s)) && Cleared(s).leaveState == s.leaveState
  {}

  lemma SettledMoves(s: Session, hasBody: bool, now: int)
    requires SessionOk(s)
    ensures var s' := Settled(s, hasBody, now);
      && SessionOk(s') && MovesForward(s, s')
      && (HasLeft(s') <==> s.leaveState == PENDING || HasLeft(s))
      && (s.leaveState == FINALIZED ==> s'.leaveState == FINALIZED)
  {
    var d := if s.leaveState == PENDING then Detached(s, hasBody) else s;
    if s.leaveState == PENDING { DetachKeeps(s, hasBody); }
    if d.leaveState == DETACHED { FinalizeKeeps(d); }
  }

  /** Between marking and settling, an expired room has every session at least on its way out. */
  ghost predicate MidPassOk(r: Room) {
    && SessionsOk(r.sessions) && ObjectsOk(r) && O.Matched(r.hold) && NpcsOk(r.npcs, r.told, Owned(r.hold.objects))
    && (r.lifetimeExpired ==> forall i <- r.sessions :: r.sessions[i].leaveState == PENDING || HasLeft(r.sessions[i]))
    && (r.allLeftReported ==> AllFinalized(r))
    && r.destroyRequests == (if r.allLeftReported then 1 else 0)
  }

  lemma MarkAllKeeps(r: Room, now: int, clock: int, nowMs: u32)
    requires RoomOk(r)
    ensures MidPassOk(MarkAll(r, now, clock, nowMs)) && Forward(r, MarkAll(r, now, clock, nowMs))
  {
    var m := MarkAll(r, now, clock, nowMs);
    forall i <- r.sessions
      ensures SessionOk(m.sessions[i]) && MovesForward(r.sessions[i], m.sessions[i])
      ensures HasLeft(r.sessions[i]) <==> HasLeft(m.sessions[i])
      ensures r.sessions[i].leaveState == FINALIZED ==> m.sessions[i].leaveState == FINALIZED
      ensures Expires(r, now) ==> m.sessions[i].leaveState == PENDING || HasLeft(m.sessions[i])
    {
      MarkedMoves(r.sessions[i], Expires(r, now), DeathPending(r, i), clock, nowMs);
    }
  }

  lemma SettleSessionsMoves(sessions: map<int, Session>, bodied: set<int>, now: int)
    requires SessionsOk(sessions)
    ensures var sessions' := SettleSessions(sessions, bodied, sessions.Keys, now);
      && SessionsOk(sessions')
      && forall i <- sessions ::
        && MovesForward(sessions[i], sessions'[i])
        && (HasLeft(sessions'[i]) <==> sessions[i].leaveState == PENDING || HasLeft(sessions[i]))
        && (sessions[i].leaveState == FINALIZED ==> sessions'[i].leaveState == FINALIZED)
  {
    forall i <- sessions
      ensures var s' := Settled(sessions[i], i in bodied, now);
        && SessionOk(s') && MovesForward(sessions[i], s')
        && (HasLeft(s') <==> sessions[i].leaveState == PENDING || HasLeft(sessions[i]))
        && (sessions[i].leaveState == FINALIZED ==> s'.leaveState == FINALIZED)
    {
      SettledMoves(sessions[i], i in bodied, now);
    }
  }

  lemma SettleNpcs(npcs: map<int, Npc>, told: map<int, int>, objects: map<int, int>, gone: set<int>)
    requires NpcsOk(npcs, told, Owned(objects))
    ensures
      var bodies := set i | i in gone && i in objects && objects[i] != NOBODY :: objects[i];
      var objects' := map i | i in objects :: if i in gone then NOBODY else objects[i];
      NpcsOk(ReleaseNpcs(npcs, bodies), TellReleased(npcs, told, bodies), Owned(objects'))
  {
    var bodies := set i | i in gone && i in objects && objects[i] != NOBODY :: objects[i];
    var objects' := map i | i in objects :: if i in gone then NOBODY else objects[i];
    forall p | p in Owned(objects) && p !in bodies ensures p in Owned(objects') {
      var i :| i in objects && objects[i] == p;
      assert objects'[i] == p;
    }
  }

  lemma SettleKeeps(m: Room, now: int)
    requires MidPassOk(m)
    ensures var q := Settle(m, m.sessions.Keys, now); RoomOk(q) && Forward(m, q)
  {
    var gone := Gone(m, m.sessions.Keys);
    SettleSessionsMoves(m.sessions, Bodied(m.hold.objects, m.players), now);
    O.LeaveKeeps(m.hold, gone);
    SettleNpcs(m.npcs, m.told, m.hold.objects, gone);
  }

  lemma CheckAllLeftKeeps(r: Room)
    requires RoomOk(r)
    ensures RoomOk(CheckAllLeft(r)) && CheckAllLeft(r).sessions == r.sessions
  {}

  lemma ForwardTransitive(r: Room, q: Room, p: Room)
    requires Forward(r, q) && Forward(q, p)
    ensures Forward(r, p)
  {
    forall i <- r.sessions ensures MovesForward(r.sessions[i], p.sessions[i]) {
      MovesForwardTransitive(r.sessions[i], q.sessions[i], p.sessions[i]);
    }
  }

  lemma PassKeeps(r: Room, now: int, clock: int, nowMs: u32)
    requires RoomOk(r)
    ensures RoomOk(ProcessLeaves(r, now, clock, nowMs)) && Forward(r, ProcessLeaves(r, now, clock, nowMs))
  {
    var m := MarkAll(r, now, clock, nowMs);
    var q := Settle(m, m.sessions.Keys, now);
    MarkAllKeeps(r, now, clock, nowMs);
    SettleKeeps(m, now);
    CheckAllLeftKeeps(q);
    ForwardTransitive(r, m, q);
  }

  lemma SpawnKeeps(r: Room, e: Event)
    requires RoomOk(r) && e.SpawnMe? && SpawnsHarmlessly(r, e)
    ensures RoomOk(Next(r, e)) && Forward(r, Next(r, e))
  {
    if e.id in r.sessions && IsActiveState(r.sessions[e.id]) { SpawnKeepsIff(r, e.id); }
    SameSessions(r, Next(r, e));
  }

  lemma NextKeeps(r: Room, e: Event)
    requires RoomOk(r) && SpawnsHarmlessly(r, e)
    ensures RoomOk(Next(r, e)) && Forward(r, Next(r, e))
  {
    if TouchesOneSession(e) {
      if e.id in r.sessions { TouchKeeps(r, e); }
    } else {
      match e
      case SpawnMe(_) => SpawnKeeps(r, e);
      case Open(_, _, _) => OpenKeeps(r, e);
      case Close(_) => CloseKeeps(r, e);
      case Aggro(_, _, _) => AggroKeeps(r, e);
      case Authority(_, _, _) => AuthorityKeeps(r, e);
      case Pass(now, clock, nowMs) => PassKeeps(r, now, clock, nowMs);
      case NpcDies(_) => NpcDeathKeeps(r, e);
      case SpawnContainer => SpawnLootKeeps(r);
      case _ => PlayerDeathKeeps(r, e);
    }
  }

  // ---- Whole runs ----

  /** A room as its constructor and MakeRoomForThisGroup leave it. */
  ghost predicate Opening(r: Room) {
    && KeysAgree(r) && !r.lifetimeExpired && !r.allLeftReported && r.destroyRequests == 0
    && (forall i <- r.sessions ::
      r.sessions[i] == NewSession(r.sessions[i].items) && r.hold.objects[i] == NOBODY && r.hold.open[i] == NO_CONTAINER)
    && r.players == map[] && r.told == map[]
    && NO_CONTAINER !in r.hold.holders
      && (forall c <- r.hold.holders :: c < r.nextObjectId && r.hold.holders[c] == NOBODY)
    && (forall n <- r.npcs :: NpcOk(r.npcs[n]) && r.npcs[n].target == NO_TARGET)
  }

  lemma OpeningOk(r: Room)
    requires Opening(r)
    ensures RoomOk(r)
  {}

  function After(r: Room, es: seq<Event>): (r': Room)
    requires KeysAgree(r)
    ensures KeysAgree(r')
  {
    if es == [] then r else Next(After(r, es[..|es| - 1]), es[|es| - 1])
  }

  /** Along the way no spawn replaces an object that has or drives anything. */
  predicate Orderly(r: Room, es: seq<Event>)
    requires KeysAgree(r)
  {
    es == [] || (Orderly(r, es[..|es| - 1]) && SpawnsHarmlessly(After(r, es[..|es| - 1]), es[|es| - 1]))
  }

  lemma SameLastStep(r: Room, es: seq<Event>, k: nat, m: Room, fs: seq<Event>, n: nat)
    requires KeysAgree(r) && KeysAgree(m) && |es| == k + 1 && |fs| == n + 1 && es[k] == fs[n]
    requires After(r, es[..k]) == After(m, fs[..n])
    ensures After(r, es) == After(m, fs)
  {}

  lemma LastOfTwo(es: seq<Event>, fs: seq<Event>, n: nat)
    requires |fs| == n + 1
    ensures (es + fs)[..|es| + n] == es + fs[..n] && (es + fs)[|es| + n] == fs[n]
  {}

  lemma {:induction false} RunInTwo(r: Room, es: seq<Event>, fs: seq<Event>)
    requires KeysAgree(r)
    ensures After(r, es + fs) == After(After(r, es), fs)
  {
    if fs == [] {
      assert es + fs == es;
    } else {
      var n := |fs| - 1;
      RunInTwo(r, es, fs[..n]);
      LastOfTwo(es, fs, n);
      SameLastStep(r, es + fs, |es| + n, After(r, es), fs, n);
    }
  }

  lemma LastStep(r: Room, es: seq<Event>, e: Event)
    requires KeysAgree(r)
    ensures After(r, es + [e]) == Next(After(r, es), e)
  {
    assert (es + [e])[..|es + [e]| - 1] == es;
  }

  lemma SameLastOrder(r: Room, es: seq<Event>, k: nat, m: Room, fs: seq<Event>, n: nat)
    requires KeysAgree(r) && KeysAgree(m) && |es| == k + 1 && |fs| == n + 1 && es[k] == fs[n]
    requires Orderly(r, es[..k]) && After(r, es[..k]) == After(m, fs[..n]) && Orderly(m, fs)
    ensures Orderly(r, es)
  {}

  lemma {:induction false} OrderlyInTwo(r: Room, es: seq<Event>, fs: seq<Event>)
    requires KeysAgree(r) && Orderly(r, es) && Orderly(After(r, es), fs)
    ensures Orderly(r, es + fs)
  {
    if fs == [] {
      assert es + fs == es;
    } else {
      var n := |fs| - 1;
      OrderlyInTwo(r, es, fs[..n]);
      RunInTwo(r, es, fs[..n]);
      LastOfTwo(es, fs, n);
      SameLastOrder(r, es + fs, |es| + n, After(r, es), fs, n);
    }
  }

  lemma {:induction false} RunKeeps(r: Room, es: seq<Event>)
    requires RoomOk(r) && Orderly(r, es)
    ensures RoomOk(After(r, es)) && Forward(r, After(r, es))
  {
    if es == [] {
      SameSessions(r, r);
    } else {
      var before := After(r, es[..|es| - 1]);
      RunKeeps(r, es[..|es| - 1]);
      NextKeeps(before, es[|es| - 1]);
      ForwardTransitive(r, before, After(r, es));
    }
  }

  /** In every reachable room a session has container c open exactly when c is held by that session's
      object, so no two sessions can operate on one container.  The containers are those the room opened
      with and every one spawned since. */
  lemma ContainerExclusion(r: Room, es: seq<Event>, i: int, j: int, c: int)
    requires Opening(r) && Orderly(r, es) && i in r.sessions && j in r.sessions && c in After(r, es).hold.holders
    ensures var h := After(r, es).hold;
      && i in h.objects && j in h.open && i in h.open
      && (h.open[i] == c <==> h.objects[i] != NOBODY && h.holders[c] == h.objects[i])
      && (h.open[i] == c && h.open[j] == c ==> i == j)
  {
    OpeningOk(r);
    RunKeeps(r, es);
    var h := After(r, es).hold;
    O.OpenIffHeld(h, i, c);
    if h.open[i] == c && h.open[j] == c { O.Exclusive(h, i, j, c); }
  }

  /** Along any run: the leave state only advances, a recall or a death is never overwritten, Main is told
      exactly once per session and exactly when it is detached, and what it was told stays true. */
  lemma LeaveLifecycle(r: Room, es: seq<Event>, later: seq<Event>, i: int)
    requires Opening(r) && Orderly(r, es) && Orderly(After(r, es), later) && i in r.sessions
    ensures i in After(r, es).sessions && i in After(After(r, es), later).sessions
    ensures var s, s' := After(r, es).sessions[i], After(After(r, es), later).sessions[i];
      && MovesForward(s, s')
      && (HasLeft(s) <==> |s.reports| == 1)
      && (HasLeft(s) ==> s'.reports == [Report(s'.reason, if s'.reason == RECALLED then s'.items else multiset{})])
  {
    OpeningOk(r);
    RunKeeps(r, es);
    RunKeeps(After(r, es), later);
  }

  /** In every reachable room an NPC's target is the object of a session that has not been detached, its
      aggro is at the minimum exactly when it has none, and the authority last broadcast is the current one. */
  lemma NpcAuthority(r: Room, es: seq<Event>, n: int)
    requires Opening(r) && Orderly(r, es) && n in After(r, es).npcs
    ensures var q := After(r, es); var npc := q.npcs[n];
      && (npc.aggro == npc.minAggro <==> npc.target == NO_TARGET)
      && (npc.target != NO_TARGET ==>
        exists i <- q.sessions :: q.hold.objects[i] == npc.target && !HasLeft(q.sessions[i]))
      && (if n in q.told then q.told[n] == npc.target else npc.target == NO_TARGET)
  {
    OpeningOk(r);
    RunKeeps(r, es);
    var q := After(r, es);
    if q.npcs[n].target != NO_TARGET {
      var i :| i in q.hold.objects && q.hold.objects[i] == q.npcs[n].target;
      assert i in q.sessions;
    }
  }

  /** In one event, authority over an NPC passes straight from one player to another only with strictly
      more aggro than the first one had. */
  lemma DirectTakeover(r: Room, e: Event, n: int)
    requires RoomOk(r) && n in r.npcs && n in Next(r, e).npcs
    requires var t, t' := r.npcs[n].target, Next(r, e).npcs[n].target; t != NO_TARGET && t' != NO_TARGET && t != t'
    ensures Next(r, e).npcs[n].aggro > r.npcs[n].aggro > r.npcs[n].minAggro && e.Authority? && e.n == n
  {
    if e.Authority? { BidNeedsMore(r, e.id, e.n, e.aggro, n); } else { OnlyBidsTakeOver(r, e, n); }
  }

  lemma OnlyBidsTakeOver(r: Room, e: Event, n: int)
    requires KeysAgree(r) && !e.Authority? && n in r.npcs && n in Next(r, e).npcs
    ensures Next(r, e).npcs[n].target in {r.npcs[n].target, NO_TARGET}
  {
    if e.Pass? {
      PassOnlyReleases(r, e.now, e.clock, e.nowMs, n);
    } else if e.Aggro? {
      AggroKeepsTarget(r, e.id, e.n, e.aggro, n);
    } else {
      SameNpcs(r, e, n);
    }
  }

  lemma AggroKeepsTarget(r: Room, id: int, m: int, aggro: int, n: int)
    requires KeysAgree(r) && n in r.npcs
    ensures var q := RequestAggro(r, id, m, aggro); n in q.npcs && q.npcs[n].target in {r.npcs[n].target, NO_TARGET}
  {}

  lemma BidNeedsMore(r: Room, id: int, m: int, aggro: int, n: int)
    requires KeysAgree(r) && n in r.npcs && NpcOk(r.npcs[n])
    ensures var q := RequestAuthority(r, id, m, aggro);
      && n in q.npcs
      && (q.npcs[n].target != r.npcs[n].target && r.npcs[n].target != NO_TARGET && q.npcs[n].target != NO_TARGET ==>
            m == n && q.npcs[n].aggro > r.npcs[n].aggro > r.npcs[n].minAggro)
  {}

  lemma SameNpcs(r: Room, e: Event, n: int)
    requires KeysAgree(r) && !e.Pass? && !e.Aggro? && !e.Authority? && n in Next(r, e).npcs
    ensures n in r.npcs && Next(r, e).npcs[n] == r.npcs[n]
  {
    if !TouchesOneSession(e) {
      match e
      case SpawnMe(_) =>
      case Open(_, _, _) =>
      case Close(_) =>
      case NpcDies(_) =>
      case PlayerDies(_) =>
      case SpawnContainer =>
    }
  }

  lemma PassOnlyReleases(r: Room, now: int, clock: int, nowMs: u32, n: int)
    requires KeysAgree(r) && n in r.npcs
    ensures var q := ProcessLeaves(r, now, clock, nowMs);
      n in q.npcs && (q.npcs[n] == r.npcs[n] || q.npcs[n].target == NO_TARGET)
  {}

  // ---- How long a room lives ----

  /** Every mark taken so far lies between lo and hi. */
  ghost predicate MarksWithin(sessions: map<int, Session>, lo: int, hi: int) {
    forall i <- sessions | sessions[i].reason != NONE :: lo <= sessions[i].markedAt <= hi
  }

  ghost predicate AllLeaving(sessions: map<int, Session>) {
    forall i <- sessions :: HasLeft(sessions[i])
  }

  /** What one pass does to one session. */
  function PassSession(s: Session, hasBody: bool, expires: bool, dying: bool, now: int, clock: int, nowMs: u32): Session
  {
    Settled(Cleared(Marked(s, expires, dying, clock, nowMs)), hasBody, now)
  }

  lemma PassIsPointwise(r: Room, now: int, clock: int, nowMs: u32, i: int)
    requires KeysAgree(r) && i in r.sessions
    ensures i in ProcessLeaves(r, now, clock, nowMs).sessions
    ensures ProcessLeaves(r, now, clock, nowMs).sessions[i]
      == PassSession(r.sessions[i], r.hold.objects[i] in r.players, Expires(r, now), DeathPending(r, i), now, clock,
          nowMs)
  {}

  lemma PassSessionStamp(s: Session, hasBody: bool, expires: bool, dying: bool, now: int, clock: int, nowMs: u32)
    ensures var s' := PassSession(s, hasBody, expires, dying, now, clock, nowMs);
      s'.markedAt == clock || (s'.markedAt == s.markedAt && s'.reason == s.reason)
  {}

  lemma PassStamps(r: Room, now: int, clock: int, nowMs: u32, lo: int, hi: int)
    requires KeysAgree(r) && lo <= clock <= hi && MarksWithin(r.sessions, lo, hi)
    ensures MarksWithin(ProcessLeaves(r, now, clock, nowMs).sessions, lo, hi)
  {
    var q := ProcessLeaves(r, now, clock, nowMs);
    forall i <- q.sessions ensures q.sessions[i].reason != NONE ==> lo <= q.sessions[i].markedAt <= hi {
      PassIsPointwise(r, now, clock, nowMs, i);
      PassSessionStamp(r.sessions[i], r.hold.objects[i] in r.players, Expires(r, now), DeathPending(r, i), now, clock,
          nowMs);
    }
  }

  /** The readings MarkLeaving may take: in a pass or at the end of a recall. */
  predicate ClockWithin(e: Event, lo: int, hi: int) {
    e.Pass? || e.RecallTick? ==> lo <= e.clock <= hi
  }

  lemma TouchedStamp(s: Session, e: Event, hasBody: bool, alive: bool)
    requires TouchesOneSession(e)
    ensures var s' := Touched(s, e, hasBody, alive);
      (s'.markedAt == s.markedAt && s'.reason == s.reason) || (e.RecallTick? && s'.markedAt == e.clock)
  {}

  lemma TouchStamps(r: Room, e: Event, lo: int, hi: int)
    requires KeysAgree(r) && TouchesOneSession(e) && e.id in r.sessions && ClockWithin(e, lo, hi)
      && MarksWithin(r.sessions, lo, hi)
    ensures MarksWithin(TouchSession(r, e).sessions, lo, hi)
  {
    var s' := Touched(r.sessions[e.id], e, HasBody(r, e.id), HasBody(r, e.id) && !DeathPending(r, e.id));
    TouchedStamp(r.sessions[e.id], e, HasBody(r, e.id), HasBody(r, e.id) && !DeathPending(r, e.id));
    ReplacedStamp(r.sessions, e.id, s', lo, hi);
  }

  lemma ReplacedStamp(sessions: map<int, Session>, i: int, s: Session, lo: int, hi: int)
    requires MarksWithin(sessions, lo, hi) && (s.reason != NONE ==> lo <= s.markedAt <= hi)
    ensures MarksWithin(sessions[i := s], lo, hi)
  {}

  lemma OthersKeepSessions(r: Room, e: Event)
    requires KeysAgree(r) && !TouchesOneSession(e) && !e.Pass?
    ensures Next(r, e).sessions == r.sessions && Next(r, e).createdAt == r.createdAt
  {
    match e
    case SpawnMe(id) => SpawnKeepsSessions(r, id);
    case Open(id, c, near) => OpenKeepsSessions(r, id, c, near);
    case Close(id) => CloseKeepsSessions(r, id);
    case Aggro(_, _, _) =>
    case Authority(_, _, _) =>
    case NpcDies(_) =>
    case PlayerDies(_) =>
    case SpawnContainer =>
  }

  lemma SpawnKeepsSessions(r: Room, id: int)
    requires KeysAgree(r)
    ensures var q := Next(r, SpawnMe(id)); q.sessions == r.sessions && q.createdAt == r.createdAt
  {}

  lemma OpenKeepsSessions(r: Room, id: int, c: int, near: set<(int, int)>)
    requires KeysAgree(r)
    ensures var q := Next(r, Open(id, c, near)); q.sessions == r.sessions && q.createdAt == r.createdAt
  {}

  lemma CloseKeepsSessions(r: Room, id: int)
    requires KeysAgree(r)
    ensures var q := Next(r, Close(id)); q.sessions == r.sessions && q.createdAt == r.createdAt
  {}

  lemma PassKeepsCreation(r: Room, now: int, clock: int, nowMs: u32)
    requires KeysAgree(r)
    ensures ProcessLeaves(r, now, clock, nowMs).createdAt == r.createdAt
  {}

  lemma NextStamps(r: Room, e: Event, lo: int, hi: int)
    requires KeysAgree(r) && MarksWithin(r.sessions, lo, hi) && ClockWithin(e, lo, hi)
    ensures MarksWithin(Next(r, e).sessions, lo, hi) && Next(r, e).createdAt == r.createdAt
  {
    if e.Pass? {
      PassStamps(r, e.now, e.clock, e.nowMs, lo, hi);
      PassKeepsCreation(r, e.now, e.clock, e.nowMs);
    } else if !TouchesOneSession(e) {
      OthersKeepSessions(r, e);
    } else if e.id in r.sessions {
      TouchStamps(r, e, lo, hi);
    }
  }

  /** Along a run every mark is a reading some event took, and the room's age counts from the same moment. */
  lemma {:induction false} RunStamps(r: Room, es: seq<Event>, lo: int, hi: int)
    requires KeysAgree(r) && MarksWithin(r.sessions, lo, hi) && forall e <- es :: ClockWithin(e, lo, hi)
    ensures MarksWithin(After(r, es).sessions, lo, hi) && After(r, es).createdAt == r.createdAt
  {
    if es != [] {
      var before, e := After(r, es[..|es| - 1]), es[|es| - 1];
      assert e in es && forall x <- es[..|es| - 1] :: x in es;
      RunStamps(r, es[..|es| - 1], lo, hi);
      NextStamps(before, e, lo, hi);
    }
  }

  /** The first pass at or after the room's lifetime detaches every session. */
  lemma ExpiryEmptiesRoom(r: Room, now: int, clock: int, nowMs: u32)
    requires RoomOk(r) && ElapsedMs(r.createdAt, now) >= ROOM_LIFETIME_MS
    ensures AllLeaving(ProcessLeaves(r, now, clock, nowMs).sessions)
  {
    var m := MarkAll(r, now, clock, nowMs);
    MarkAllKeeps(r, now, clock, nowMs);
    SettleKeeps(m, now);
    SettleSessionsMoves(m.sessions, Bodied(m.hold.objects, m.players), now);
  }

  lemma StaysLeft(r: Room, r': Room, lo: int, hi: int)
    requires Forward(r, r') && AllLeaving(r.sessions) && MarksWithin(r.sessions, lo, hi)
    requires SessionsOk(r.sessions)
    ensures AllLeaving(r'.sessions) && MarksWithin(r'.sessions, lo, hi)
  {}

  lemma ReadyAfterGrace(s: Session, now: int)
    requires DEATH_GRACE_MS * TICKS_PER_MS <= now - s.markedAt < WORD * TICKS_PER_MS
    ensures IsFinalizeReady(s, now)
  {}

  lemma PassSessionFinalizes(s: Session, hasBody: bool, expires: bool, dying: bool, now: int, clock: int, nowMs: u32)
    requires SessionOk(s) && HasLeft(s) && DEATH_GRACE_MS * TICKS_PER_MS <= now - s.markedAt < WORD * TICKS_PER_MS
    ensures PassSession(s, hasBody, expires, dying, now, clock, nowMs).leaveState == FINALIZED
  {
    ReadyAfterGrace(s, now);
    assert Cleared(Marked(s, expires, dying, clock, nowMs)) == s;
  }

  /** A pass that finds every session detached and every grace over finalizes them all. */
  lemma GraceOverFinalizes(r: Room, now: int, clock: int, nowMs: u32)
    requires RoomOk(r) && AllLeaving(r.sessions)
    requires forall i <- r.sessions ::
      DEATH_GRACE_MS * TICKS_PER_MS <= now - r.sessions[i].markedAt < WORD * TICKS_PER_MS
    ensures AllFinalized(ProcessLeaves(r, now, clock, nowMs))
  {
    var q := ProcessLeaves(r, now, clock, nowMs);
    forall i <- q.sessions ensures q.sessions[i].leaveState == FINALIZED {
      PassIsPointwise(r, now, clock, nowMs, i);
      PassSessionFinalizes(r.sessions[i], r.hold.objects[i] in r.players, Expires(r, now), DeathPending(r, i), now,
          clock, nowMs);
    }
  }

  lemma FinalizedIsReported(r: Room, now: int, clock: int, nowMs: u32)
    requires RoomOk(r) && AllFinalized(ProcessLeaves(r, now, clock, nowMs))
    ensures ProcessLeaves(r, now, clock, nowMs).allLeftReported
      && ProcessLeaves(r, now, clock, nowMs).destroyRequests == 1
  {
    PassKeeps(r, now, clock, nowMs);
  }

  lemma AfterExpiry(r: Room, es: seq<Event>, lo: int, hi: int, now: int, clock: int, nowMs: u32)
    requires RoomOk(r) && AllLeaving(r.sessions) && MarksWithin(r.sessions, lo, hi) && Orderly(r, es)
    requires hi + DEATH_GRACE_MS * TICKS_PER_MS <= now < lo + WORD * TICKS_PER_MS
    ensures var q := ProcessLeaves(After(r, es), now, clock, nowMs);
      AllFinalized(q) && q.allLeftReported && q.destroyRequests == 1
  {
    var r' := After(r, es);
    RunKeeps(r, es);
    StaysLeft(r, r', lo, hi);
    forall i <- r'.sessions ensures lo <= r'.sessions[i].markedAt <= hi {
      assert SessionOk(r'.sessions[i]);
    }
    GraceOverFinalizes(r', now, clock, nowMs);
    FinalizedIsReported(r', now, clock, nowMs);
  }

  /** Bounded life: take any run from the opening of a room, then the first pass past its lifetime, then
      whatever happens; any pass at least the death grace later finalizes every session and reserves the
      room's destruction, once. */
  lemma BoundedRoomLife(r: Room, before: seq<Event>, now1: int, clock1: int, nowMs1: u32, es: seq<Event>, now2: int,
      clock2: int, nowMs2: u32)
    requires Opening(r) && Orderly(r, before) && forall e <- before :: ClockWithin(e, r.createdAt, clock1)
    requires r.createdAt <= clock1 && ElapsedMs(r.createdAt, now1) >= ROOM_LIFETIME_MS
    requires Orderly(ProcessLeaves(After(r, before), now1, clock1, nowMs1), es)
    requires clock1 + DEATH_GRACE_MS * TICKS_PER_MS <= now2 < r.createdAt + WORD * TICKS_PER_MS
    ensures AllLeaving(ProcessLeaves(After(r, before), now1, clock1, nowMs1).sessions)
    ensures var q :=
      ProcessLeaves(After(ProcessLeaves(After(r, before), now1, clock1, nowMs1), es), now2, clock2, nowMs2);
      AllFinalized(q) && q.allLeftReported && q.destroyRequests == 1
  {
    var a := After(r, before);
    OpeningOk(r);
    RunKeeps(r, before);
    RunStamps(r, before, r.createdAt, clock1);
    PassKeeps(a, now1, clock1, nowMs1);
    ExpiryEmptiesRoom(a, now1, clock1, nowMs1);
    PassStamps(a, now1, clock1, nowMs1, r.createdAt, clock1);
    AfterExpiry(ProcessLeaves(a, now1, clock1, nowMs1), es, r.createdAt, clock1, now2, clock2, nowMs2);
  }

  /** Room destruction is reserved at most once, and only while every session is finalized. */
  lemma DestroyedOnce(r: Room, es: seq<Event>)
    requires Opening(r) && Orderly(r, es)
    ensures var q := After(r, es);
      q.destroyRequests <= 1
          && (q.destroyRequests == 1 ==> forall i <- q.sessions :: q.sessions[i].leaveState == FINALIZED)
  {
    OpeningOk(r);
    RunKeeps(r, es);
  }

  // ---- The death grace ----

  /** Known before a pass: the session is dead, or this pass marks it so. */
  predicate WillBeDead(s: Session, expires: bool, dying: bool) {
    s.reason == DEAD
    || ((expires || dying) && (s.leaveState == STAYING || (s.leaveState == PENDING && s.reason == DISCONNECTED)))
  }

  /** The clock reading its death carries through the pass. */
  function DeathMark(s: Session, clock: int): int { if s.reason == DEAD then s.markedAt else clock }

  lemma MarkedDead(s: Session, expires: bool, dying: bool, clock: int, nowMs: u32)
    requires SessionOk(s) && WillBeDead(s, expires, dying)
    ensures var m := Cleared(Marked(s, expires, dying, clock, nowMs));
      && m.reason == DEAD && m.markedAt == DeathMark(s, clock)
      && m.leaveState == if HasLeft(s) then s.leaveState else PENDING
  {}

  lemma PassSessionGrace(s: Session, hasBody: bool, expires: bool, dying: bool, now: int, clock: int, nowMs: u32)
    requires SessionOk(s) && s.leaveState != FINALIZED && WillBeDead(s, expires, dying)
    requires -(WORD - DEATH_GRACE_MS) * TICKS_PER_MS < now - DeathMark(s, clock) < WORD * TICKS_PER_MS
    ensures var s' := PassSession(s, hasBody, expires, dying, now, clock, nowMs); var mark := DeathMark(s, clock);
      && s'.reason == DEAD && s'.markedAt == mark && HasLeft(s')
      && (s'.leaveState == FINALIZED <==> now - mark >= DEATH_GRACE_MS * TICKS_PER_MS || mark - now >= TICKS_PER_MS)
  {
    var m := Cleared(Marked(s, expires, dying, clock, nowMs));
    MarkedDead(s, expires, dying, clock, nowMs);
    DeathGraceIff(if m.leaveState == PENDING then Detached(m, hasBody) else m, now);
  }

  /** A pass finalizes a dead session exactly when its grace has passed, or when its mark lies a millisecond
      or more after the pass's own clock reading; and both are known before the pass. */
  lemma DeathGraceKept(r: Room, now: int, clock: int, nowMs: u32, i: int)
    requires RoomOk(r) && i in r.sessions && r.sessions[i].leaveState != FINALIZED
    requires WillBeDead(r.sessions[i], Expires(r, now), DeathPending(r, i))
    requires -(WORD - DEATH_GRACE_MS) * TICKS_PER_MS < now - DeathMark(r.sessions[i], clock) < WORD * TICKS_PER_MS
    ensures i in ProcessLeaves(r, now, clock, nowMs).sessions
      && ProcessLeaves(r, now, clock, nowMs).sessions[i].reason == DEAD
    ensures var mark := DeathMark(r.sessions[i], clock);
      ProcessLeaves(r, now, clock, nowMs).sessions[i].leaveState == FINALIZED
      <==> now - mark >= DEATH_GRACE_MS * TICKS_PER_MS || mark - now >= TICKS_PER_MS
  {
    PassIsPointwise(r, now, clock, nowMs, i);
    PassSessionGrace(r.sessions[i], r.hold.objects[i] in r.players, Expires(r, now), DeathPending(r, i), now, clock,
        nowMs);
  }

  /** A session whose death this very pass marks gets its grace exactly if less than a millisecond passes
      between the pass's clock reading and the mark's. */
  lemma LateMarkIff(r: Room, now: int, clock: int, nowMs: u32, i: int)
    requires RoomOk(r) && i in r.sessions && r.sessions[i].leaveState == STAYING
      && (Expires(r, now) || DeathPending(r, i))
    requires -(WORD - DEATH_GRACE_MS) * TICKS_PER_MS < now - clock < DEATH_GRACE_MS * TICKS_PER_MS
    ensures i in ProcessLeaves(r, now, clock, nowMs).sessions
      && ProcessLeaves(r, now, clock, nowMs).sessions[i].reason == DEAD
    ensures ProcessLeaves(r, now, clock, nowMs).sessions[i].leaveState == FINALIZED <==> clock - now >= TICKS_PER_MS
  {
    DeathGraceKept(r, now, clock, nowMs, i);
  }

  /** So in a room that has just opened, a pass past the lifetime may finalize a player it has only now killed. */
  lemma LateMarkFinalizes(r: Room, now: int, clock: int, nowMs: u32, i: int)
    requires Opening(r) && i in r.sessions && Expires(r, now)
    requires TICKS_PER_MS <= clock - now < (WORD - DEATH_GRACE_MS) * TICKS_PER_MS
    ensures var q := After(r, [Pass(now, clock, nowMs)]);
      i in q.sessions && q.sessions[i].reason == DEAD && q.sessions[i].leaveState == FINALIZED
  {
    OpeningOk(r);
    AfterOne(r, Pass(now, clock, nowMs));
    NextPass(r, Pass(now, clock, nowMs));
    LateMarkIff(r, now, clock, nowMs, i);
  }

  /** A room opened at time 0 with one player. */
  const LONELY :=
      Room(0, false, false, 0, 0, map[7 := NewSession(multiset{})],
      O.State(map[7 := NOBODY], map[7 := NO_CONTAINER], map[]),
                       map[], map[], map[])

  /** Its first pass after ten minutes takes a millisecond between the two readings: the player dies and is
      finalized in one pass, and the room with him. */
  lemma GraceSkippedByLateMark()
    ensures Opening(LONELY)
    ensures var now := ROOM_LIFETIME_MS * TICKS_PER_MS; var q := After(LONELY, [Pass(now, now + TICKS_PER_MS, 0)]);
      && 7 in q.sessions && q.sessions[7].reason == DEAD && q.sessions[7].leaveState == FINALIZED
  {
    LonelyOpens();
    LateMarkFinalizes(LONELY, ROOM_LIFETIME_MS * TICKS_PER_MS, ROOM_LIFETIME_MS * TICKS_PER_MS + TICKS_PER_MS, 0, 7);
  }

  lemma LonelyOpens()
    ensures Opening(LONELY) && Expires(LONELY, ROOM_LIFETIME_MS * TICKS_PER_MS) && 7 in LONELY.sessions
  {}

  lemma AfterOne(r: Room, e: Event)
    requires KeysAgree(r)
    ensures After(r, [e]) == Next(r, e)
  {
    assert After(r, [e][..0]) == r;
  }

  lemma NextPass(r: Room, e: Event)
    requires KeysAgree(r) && e.Pass?
    ensures Next(r, e) == ProcessLeaves(r, e.now, e.clock, e.nowMs)
  {
    match e
    case Pass(now, clock, nowMs) =>
  }
}
