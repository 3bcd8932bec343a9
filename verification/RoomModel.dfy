/** A game room as a state machine: sessions leaving, containers being held, NPCs being driven.
    The room-wide maps and the per-session fields are coupled through player object ids. */
module RoomModel {
  import opened UInt32
  import opened SessionModel
  import opened HostileNpc
  import O = Occupancy

  /** hold couples the sessions' player objects and open containers with the containers' holders; players
      maps a player object to whether its death is pending; told is the authority last broadcast for an NPC. */
  datatype Room = Room(
    createdAt: int, lifetimeExpired: bool, allLeftReported: bool, destroyRequests: nat, nextObjectId: nat,
    sessions: map<int, Session>, hold: O.State, players: map<int, bool>, npcs: map<int, Npc>, told: map<int, int>)

  /** The three maps over session ids have the same keys. */
  predicate KeysAgree(r: Room) {
    r.hold.objects.Keys == r.sessions.Keys && r.hold.open.Keys == r.sessions.Keys
  }

  // ---- Containers ----

  /** near holds the pairs (player object, container) within reach; only objects in the room have a distance. */
  predicate IsNear(r: Room, near: set<(int, int)>, player: int, c: int) {
    player in r.players && c in r.hold.holders && (player, c) in near
  }

  predicate CanOpen(r: Room, id: int, c: int, near: set<(int, int)>)
    requires KeysAgree(r)
  {
    && id in r.sessions && IsActiveState(r.sessions[id]) && c in r.hold.holders
    && r.hold.objects[id] != NOBODY
    && IsNear(r, near, r.hold.objects[id], c)
    && (r.hold.holders[c] != NOBODY && r.hold.holders[c] != r.hold.objects[id] ==>
      !IsNear(r, near, r.hold.holders[c], c))
  }

  function OpenContainer(r: Room, id: int, c: int, near: set<(int, int)>): Room
    requires KeysAgree(r)
  {
    if CanOpen(r, id, c, near) then r.(hold := O.Take(r.hold, id, c)) else r
  }

  function CloseContainer(r: Room, id: int): Room
    requires KeysAgree(r)
  {
    if id in r.sessions && IsActiveState(r.sessions[id]) && r.hold.open[id] != NO_CONTAINER
    then r.(hold := O.Release(r.hold, id)) else r
  }

  // ---- NPC authority ----

  function WithNpc(r: Room, n: int, npc: Npc): Room
    requires n in r.npcs
  {
    r.(npcs := r.npcs[n := npc],
       told := if npc.target != r.npcs[n].target then r.told[n := npc.target] else r.told)
  }

  predicate MayAsk(r: Room, id: int, n: int)
    requires KeysAgree(r)
  {
    id in r.sessions && IsActiveState(r.sessions[id]) && r.hold.objects[id] != NOBODY && n in r.npcs
  }

  function RequestAggro(r: Room, id: int, n: int, aggro: int): Room
    requires KeysAgree(r)
  {
    if MayAsk(r, id, n) && AcceptsAggroRequest(r.npcs[n], r.hold.objects[id])
    then WithNpc(r, n, WithAggro(r.npcs[n], aggro, r.hold.objects[id])) else r
  }

  /** An explicit bid for authority; a hit by a weapon is the bid at the NPC's maximum. */
  function RequestAuthority(r: Room, id: int, n: int, aggro: int): Room
    requires KeysAgree(r)
  {
    if MayAsk(r, id, n) && AcceptsAuthorityRequest(r.npcs[n], r.hold.objects[id], aggro)
    then WithNpc(r, n, WithAggro(r.npcs[n], aggro, r.hold.objects[id])) else r
  }

  // ---- One pass of ProcessLeaves ----

  predicate IsDying(objects: map<int, int>, players: map<int, bool>, id: int) {
    id in objects && objects[id] != NOBODY && objects[id] in players && players[objects[id]]
  }

  predicate DeathPending(r: Room, id: int) { IsDying(r.hold.objects, r.players, id) }

  predicate Expires(r: Room, now: int) {
    !r.lifetimeExpired && ElapsedMs(r.createdAt, now) >= ROOM_LIFETIME_MS
  }

  /** Everything that can mark a session in a pass, in order: the room's lifetime, a pending death, silence. */
  function Marked(s: Session, expires: bool, dying: bool, clock: int, nowMs: u32): Session {
    var s1 := if expires then MarkLeaving(s, DEAD, 0, clock) else s;
    var s2 := if dying then MarkLeaving(s1, DEAD, 0, clock) else s1;
    if IsDisconnected(s2, nowMs) then MarkLeaving(s2, DISCONNECTED, 0, clock) else s2
  }

  function Cleared(s: Session): Session {
    if s.leaveState == PENDING then ClearPendingExcept(s, s.notifyRSeq) else s
  }

  /** Detaching and then, when it is ready, finalizing one session. */
  function Settled(s: Session, hasBody: bool, now: int): Session {
    var d := if s.leaveState == PENDING then Detached(s, hasBody) else s;
    if d.leaveState == DETACHED && IsFinalizeReady(d, now) then FinalizeLeave(d) else d
  }

  function MarkSessions(sessions: map<int, Session>, objects: map<int, int>, players: map<int, bool>, expires: bool,
      clock: int, nowMs: u32):
    map<int, Session>
  {
    map i | i in sessions :: Cleared(Marked(sessions[i], expires, IsDying(objects, players, i), clock, nowMs))
  }

  function MarkAll(r: Room, now: int, clock: int, nowMs: u32): (r': Room)
    requires KeysAgree(r)
    ensures KeysAgree(r')
  {
    r.(lifetimeExpired := r.lifetimeExpired || Expires(r, now),
       sessions := MarkSessions(r.sessions, r.hold.objects, r.players, Expires(r, now), clock, nowMs))
  }

  /** Of the sessions in ids, the ones this pass detaches. */
  function Gone(r: Room, ids: set<int>): set<int> {
    set i | i in ids && i in r.sessions && r.sessions[i].leaveState == PENDING
  }

  function Bodies(r: Room, gone: set<int>): set<int> {
    set i | i in gone && i in r.hold.objects && r.hold.objects[i] != NOBODY :: r.hold.objects[i]
  }

  function ReleaseNpcs(npcs: map<int, Npc>, bodies: set<int>): map<int, Npc> {
    map n | n in npcs :: if npcs[n].target in bodies then Released(npcs[n]) else npcs[n]
  }

  function TellReleased(npcs: map<int, Npc>, told: map<int, int>, bodies: set<int>): map<int, int> {
    told + (map n | n in npcs && npcs[n].target in bodies :: NO_TARGET)
  }

  function SettleSessions(sessions: map<int, Session>, bodied: set<int>, ids: set<int>, now: int): map<int, Session> {
    map i | i in sessions :: if i in ids then Settled(sessions[i], i in bodied, now) else sessions[i]
  }

  /** The sessions whose player object is in the room. */
  function Bodied(objects: map<int, int>, players: map<int, bool>): set<int> {
    set i | i in objects && objects[i] in players
  }

  /** The room once the sessions in ids have been settled, whatever the order. */
  function Settle(r: Room, ids: set<int>, now: int): (r': Room)
    requires KeysAgree(r)
    ensures KeysAgree(r')
  {
    var gone := Gone(r, ids);
    var bodies := Bodies(r, gone);
    r.(sessions := SettleSessions(r.sessions, Bodied(r.hold.objects, r.players), ids, now),
       hold := O.Leave(r.hold, gone),
       players := r.players - bodies,
       npcs := ReleaseNpcs(r.npcs, bodies),
       told := TellReleased(r.npcs, r.told, bodies))
  }

  predicate AllFinalized(r: Room) {
    forall i <- r.sessions :: r.sessions[i].leaveState == FINALIZED
  }

  function CheckAllLeft(r: Room): (r': Room)
    ensures KeysAgree(r) ==> KeysAgree(r')
  {
    if r.allLeftReported || !AllFinalized(r) then r
    else r.(allLeftReported := true, destroyRequests := r.destroyRequests + 1)
  }

  /** now is the pass's clock reading, clock the one MarkLeaving takes later in the same pass. */
  function ProcessLeaves(r: Room, now: int, clock: int, nowMs: u32): Room
    requires KeysAgree(r)
  {
    var m := MarkAll(r, now, clock, nowMs);
    CheckAllLeft(Settle(m, m.sessions.Keys, now))
  }
}
