/** The room object.  Its maps are iterated in whatever order the hash map yields; the loops below reach
    the room RoomModel describes in every order.  A session is a value here, updated through the
    operations that PlayerSession is proved to perform. */
module GameRooms {
  import opened UInt32
  import opened SessionModel
  import opened HostileNpc
  import opened RoomModel
  import opened RoomRuns
  import L = RoomLoot
  import opened Sets
  import O = Occupancy

  /** No two sessions share a player object. */
  ghost predicate Apart(objects: map<int, int>) {
    forall i, j | i in objects && j in objects && i != j && objects[i] != NOBODY :: objects[i] != objects[j]
  }

  lemma EvictFound(h: O.State, i: int)
    requires Apart(h.objects) && i in h.objects && i in h.open && h.objects[i] != NOBODY
    ensures O.Evict(h, h.objects[i]) == h.(open := h.open[i := NO_CONTAINER])
  {
    forall j | j in h.open ensures O.Evict(h, h.objects[i]).open[j] == h.open[i := NO_CONTAINER][j] {}
  }

  lemma EvictNobody(h: O.State, holder: int)
    requires holder == NOBODY || forall i <- h.objects :: h.objects[i] != holder
    ensures O.Evict(h, holder) == h
  {
    forall j | j in h.open ensures O.Evict(h, holder).open[j] == h.open[j] {}
  }

  function BodyOf(h: O.State, id: int): set<int>
    requires id in h.objects
  {
    if h.objects[id] == NOBODY then {} else {h.objects[id]}
  }

  lemma LeaveOne(h: O.State, i: int)
    requires i in h.open && i in h.objects
    ensures O.Leave(h, {i}) == O.Release(h, i).(objects := h.objects[i := NOBODY])
  {
    var got, want := O.Leave(h, {i}), O.Release(h, i).(objects := h.objects[i := NOBODY]);
    forall j | j in h.objects ensures got.objects[j] == want.objects[j] {}
    forall j | j in h.open ensures got.open[j] == want.open[j] {}
    forall c | c in h.holders ensures got.holders[c] == want.holders[c] {
      if c == h.open[i] && c != NO_CONTAINER && h.holders[c] == h.objects[i] { assert O.LeavesFree(h, {i}, c); }
    }
  }

  lemma LeaveKeepsApart(h: O.State, gone: set<int>)
    requires Apart(h.objects)
    ensures Apart(O.Leave(h, gone).objects)
  {}

  // ---- What each marking loop leaves ----

  function Killed(sessions: map<int, Session>, clock: int): map<int, Session> {
    map i | i in sessions :: MarkLeaving(sessions[i], DEAD, 0, clock)
  }

  function Died(sessions: map<int, Session>, objects: map<int, int>, players: map<int, bool>, clock: int): map<int,
      Session>
  {
    map i | i in sessions ::
        if IsDying(objects, players, i) then MarkLeaving(sessions[i], DEAD, 0, clock) else sessions[i]
  }

  function Silenced(sessions: map<int, Session>, nowMs: u32, clock: int): map<int, Session> {
    map i | i in sessions ::
        if IsDisconnected(sessions[i], nowMs) then MarkLeaving(sessions[i], DISCONNECTED, 0, clock) else sessions[i]
  }

  function AllCleared(sessions: map<int, Session>): map<int, Session> {
    map i | i in sessions :: Cleared(sessions[i])
  }

  /** The sessions in todo are as before, the others as they should become. */
  ghost predicate Between(before: map<int, Session>, now: map<int, Session>, want: map<int, Session>, todo: set<int>) {
    && now.Keys == before.Keys == want.Keys
    && forall i <- now :: now[i] == if i in todo then before[i] else want[i]
  }

  lemma BetweenDone(before: map<int, Session>, now: map<int, Session>, want: map<int, Session>, todo: set<int>)
    requires Between(before, now, want, todo) && todo == {}
    ensures now == want
  {
    forall i | i in now ensures now[i] == want[i] {}
  }

  /** The sessions whose death the list has not named: the others the loop may still reach, or leaves alone. */
  ghost function Unread(sessions: map<int, Session>, objects: map<int, int>, named: seq<int>): set<int> {
    set i | i in sessions && !(i in objects && objects[i] in named)
  }

  /** Naming one more object reads the one session it belongs to, if any. */
  lemma UnreadStep(sessions: map<int, Session>, objects: map<int, int>, named: seq<int>, k: nat, found: bool, id: int)
    requires k < |named| && named[k] != NOBODY && objects.Keys == sessions.Keys && Apart(objects)
    requires if found then id in objects && objects[id] == named[k] else forall i <- objects :: objects[i] != named[k]
    ensures Unread(sessions, objects, named[..k + 1])
      == Unread(sessions, objects, named[..k]) - (if found then {id} else {})
  {
    var left, right :=
        Unread(sessions, objects, named[..k + 1]), Unread(sessions, objects, named[..k]) - (if found then {id} else {});
    assert named[..k + 1] == named[..k] + [named[k]];
    forall i ensures i in left <==> i in right {}
  }

  /** Marking session id, whether for the first time or again, takes it out of todo. */
  lemma MarkStep(before: map<int, Session>, now: map<int, Session>, want: map<int, Session>, todo: set<int>, id: int,
      clock: int)
    requires Between(before, now, want, todo) && id in now
    requires want[id] == MarkLeaving(before[id], DEAD, 0, clock)
    ensures Between(before, now[id := MarkLeaving(now[id], DEAD, 0, clock)], want, todo - {id})
  {
    MarkTwice(before[id], clock);
  }

  lemma DeathsDone(before: map<int, Session>, now: map<int, Session>, objects: map<int, int>, players: map<int, bool>,
      clock: int, dying: seq<int>)
    requires objects.Keys == before.Keys && NOBODY !in players
    requires forall p :: p in dying <==> p in players && players[p]
    requires Between(before, now, Died(before, objects, players, clock), Unread(before, objects, dying))
    ensures now == Died(before, objects, players, clock)
  {}

  lemma MarkTwice(s: Session, clock: int)
    ensures MarkLeaving(MarkLeaving(s, DEAD, 0, clock), DEAD, 0, clock) == MarkLeaving(s, DEAD, 0, clock)
  {}

  function MaybeKilled(sessions: map<int, Session>, expires: bool, clock: int): map<int, Session> {
    if expires then Killed(sessions, clock) else sessions
  }

  lemma OneMarkedInTurn(sessions: map<int, Session>, objects: map<int, int>, players: map<int, bool>, expires: bool,
      clock: int, nowMs: u32, i: int)
    requires i in sessions
    ensures var q := Silenced(Died(MaybeKilled(sessions, expires, clock), objects, players, clock), nowMs, clock);
      i in q && q[i] == Marked(sessions[i], expires, IsDying(objects, players, i), clock, nowMs)
  {}

  /** The four loops together are the marking half of a pass. */
  lemma MarkedInTurn(sessions: map<int, Session>, objects: map<int, int>, players: map<int, bool>, expires: bool,
      clock: int, nowMs: u32)
    ensures AllCleared(Silenced(Died(MaybeKilled(sessions, expires, clock), objects, players, clock), nowMs, clock))
      == MarkSessions(sessions, objects, players, expires, clock, nowMs)
  {
    var q := Silenced(Died(MaybeKilled(sessions, expires, clock), objects, players, clock), nowMs, clock);
    forall i | i in sessions
      ensures i in q && q[i] == Marked(sessions[i], expires, IsDying(objects, players, i), clock, nowMs)
    {
      OneMarkedInTurn(sessions, objects, players, expires, clock, nowMs, i);
    }
    ClearedAlike(sessions, q, objects, players, expires, clock, nowMs);
  }

  lemma ClearedAlike(sessions: map<int, Session>, q: map<int, Session>, objects: map<int, int>,
      players: map<int, bool>, expires: bool, clock: int, nowMs: u32)
    requires q.Keys == sessions.Keys
    requires forall i <- sessions :: q[i] == Marked(sessions[i], expires, IsDying(objects, players, i), clock, nowMs)
    ensures AllCleared(q) == MarkSessions(sessions, objects, players, expires, clock, nowMs)
  {}

  /** The NPCs outside todo have been looked at. */
  ghost function ReleaseSome(npcs: map<int, Npc>, body: int, todo: set<int>): map<int, Npc> {
    map n | n in npcs :: if n !in todo && npcs[n].target == body then Released(npcs[n]) else npcs[n]
  }

  ghost function TellSome(npcs: map<int, Npc>, told: map<int, int>, body: int, todo: set<int>): map<int, int> {
    told + map n | n in npcs && n !in todo && npcs[n].target == body :: NO_TARGET
  }

  lemma ReleaseEnds(npcs: map<int, Npc>, told: map<int, int>, body: int)
    ensures ReleaseSome(npcs, body, npcs.Keys) == npcs && TellSome(npcs, told, body, npcs.Keys) == told
    ensures ReleaseSome(npcs, body, {}) == ReleaseNpcs(npcs, {body})
      && TellSome(npcs, told, body, {}) == TellReleased(npcs, told, {body})
  {
    TellEnds(npcs, told, body);
  }

  lemma TellEnds(npcs: map<int, Npc>, told: map<int, int>, body: int)
    ensures TellSome(npcs, told, body, npcs.Keys) == told
      && TellSome(npcs, told, body, {}) == TellReleased(npcs, told, {body})
  {}

  lemma ReleaseStep(npcs: map<int, Npc>, told: map<int, int>, body: int, todo: set<int>, n: int)
    requires n in npcs && n in todo
    ensures ReleaseSome(npcs, body, todo)[n] == npcs[n]
    ensures ReleaseSome(npcs, body, todo - {n})
      == if npcs[n].target == body then ReleaseSome(npcs, body, todo)[n := Released(npcs[n])]
          else ReleaseSome(npcs, body, todo)
    ensures TellSome(npcs, told, body, todo - {n})
      == if npcs[n].target == body then TellSome(npcs, told, body, todo)[n := NO_TARGET]
          else TellSome(npcs, told, body, todo)
  {
    TellStep(npcs, told, body, todo, n);
  }

  lemma TellStep(npcs: map<int, Npc>, told: map<int, int>, body: int, todo: set<int>, n: int)
    requires n in npcs && n in todo
    ensures TellSome(npcs, told, body, todo - {n})
      == if npcs[n].target == body then TellSome(npcs, told, body, todo)[n := NO_TARGET]
          else TellSome(npcs, told, body, todo)
  {}

  class GameRoom {
    const createdAt: int
    var lifetimeExpired: bool
    var allLeftReported: bool
    var destroyRequests: nat
    var nextObjectId: nat
    var sessions: map<int, Session>
    var hold: O.State
    var playerObjects: map<int, bool>
    var npcs: map<int, Npc>
    var told: map<int, int>
    // What the containers hold, as a multiset; their slots are PlayerInventories.Container.
    var loot: map<int, multiset<int>>

    function Abs(): Room reads this {
      Room(createdAt, lifetimeExpired, allLeftReported, destroyRequests, nextObjectId, sessions, hold, playerObjects,
          npcs, told)
    }

    function World(): L.World reads this { L.World(Abs(), loot) }

    ghost predicate Valid() reads this {
      && hold.objects.Keys == sessions.Keys && hold.open.Keys == sessions.Keys
      && NOBODY !in playerObjects && Apart(hold.objects)
    }

    /** A room as it opens: its players registered and nobody spawned, its containers free, its NPCs undriven. */
    constructor (createdAt: int, nextObjectId: nat, sessions: map<int, Session>, loot: map<int, multiset<int>>,
        npcs: map<int, Npc>)
      requires forall c <- loot :: 0 <= c < nextObjectId
      requires forall i <- sessions :: sessions[i] == NewSession(sessions[i].items)
      requires forall n <- npcs :: NpcOk(npcs[n]) && npcs[n].target == NO_TARGET
      ensures Valid() && Opening(Abs()) && Abs().sessions == sessions && Abs().npcs == npcs
      ensures this.loot == loot && L.LootOk(World())
    {
      this.createdAt, lifetimeExpired, allLeftReported, destroyRequests := createdAt, false, false, 0;
      this.nextObjectId := nextObjectId;
      this.sessions, playerObjects, this.npcs, told := sessions, map[], npcs, map[];
      hold := O.State(map i | i in sessions :: NOBODY, map i | i in sessions :: NO_CONTAINER,
                      map c | c in loot :: NOBODY);
      this.loot := loot;
    }

    // ---- Containers ----

    method ReleaseInteractingContainer(id: int)
      requires Valid() && id in sessions
      modifies this`hold
      ensures Valid() && hold == O.Release(old(hold), id)
    {
      var c := hold.open[id];
      hold := hold.(open := hold.open[id := NO_CONTAINER]);
      if c == NO_CONTAINER { return; }
      if c !in hold.holders { return; }
      if hold.holders[c] != hold.objects[id] { return; }
      hold := hold.(holders := hold.holders[c := NOBODY]);
    }

    method FindSessionByObjectId(body: int) returns (found: bool, id: int)
      requires Valid()
      ensures found ==> id in sessions && hold.objects[id] == body && body != NOBODY
      ensures !found && body != NOBODY ==> forall i <- sessions :: hold.objects[i] != body
    {
      found, id := false, NOBODY;
      if body == NOBODY { return; }
      var todo := sessions.Keys;
      while todo != {}
        invariant todo <= sessions.Keys
        invariant forall i <- sessions | i !in todo :: hold.objects[i] != body
        decreases todo
      {
        SomeMember(todo);
        var j: int :| j in todo;
        if hold.objects[j] == body { return true, j; }
        todo := todo - {j};
      }
    }

    /** Opening a container, taking it over from a holder that has walked out of reach. */
    method OpenContainer(id: int, c: int, near: set<(int, int)>) returns (ok: bool)
      requires Valid() && id in sessions
      modifies this`hold
      ensures Valid() && Abs() == RoomModel.OpenContainer(old(Abs()), id, c, near)
      ensures ok == CanOpen(old(Abs()), id, c, near)
    {
      if !IsActiveState(sessions[id]) { return false; }
      if c !in hold.holders { return false; }
      var body := hold.objects[id];
      if body == NOBODY { return false; }
      if !IsNear(Abs(), near, body, c) { return false; }
      var holder := hold.holders[c];
      EvictNobody(hold, NOBODY);
      if holder != NOBODY && holder != body {
        if IsNear(Abs(), near, holder, c) { return false; }
        var found, h := FindSessionByObjectId(holder);
        if found {
          EvictFound(hold, h);
          hold := hold.(open := hold.open[h := NO_CONTAINER]);
        } else {
          EvictNobody(hold, holder);
        }
      }
      ReleaseInteractingContainer(id);
      hold := hold.(holders := hold.holders[c := body], open := hold.open[id := c]);
      ok := true;
    }

    /** The container object of a dead player's things. */
    method SpawnPlayerLootContainer(things: multiset<int>)
      requires Valid()
      modifies this`hold, this`nextObjectId, this`loot
      ensures Valid() && Abs() == SpawnLoot(old(Abs())) && loot == old(loot)[old(nextObjectId) := things]
    {
      hold := hold.(holders := hold.holders[nextObjectId := NOBODY]);
      loot := loot[nextObjectId := things];
      nextObjectId := nextObjectId + 1;
    }

    // ---- Marking ----

    method AllKill(clock: int)
      modifies this`sessions
      ensures sessions == Killed(old(sessions), clock)
    {
      ghost var before, want := sessions, Killed(sessions, clock);
      var todo := sessions.Keys;
      while todo != {}
        invariant todo <= before.Keys && Between(before, sessions, want, todo)
        decreases todo
      {
        SomeMember(todo);
        var j: int :| j in todo;
        sessions := sessions[j := MarkLeaving(sessions[j], DEAD, 0, clock)];
        todo := todo - {j};
      }
      BetweenDone(before, sessions, want, todo);
    }

    method CollectDying() returns (dying: seq<int>)
      ensures forall p :: p in dying <==> p in playerObjects && playerObjects[p]
    {
      dying := [];
      var todo := playerObjects.Keys;
      while todo != {}
        invariant todo <= playerObjects.Keys
        invariant forall p :: p in dying <==> p in playerObjects && p !in todo && playerObjects[p]
        decreases todo
      {
        SomeMember(todo);
        var p: int :| p in todo;
        if playerObjects[p] { dying := dying + [p]; }
        todo := todo - {p};
      }
    }

    method MarkDeaths(clock: int)
      requires Valid()
      modifies this`sessions
      ensures sessions == Died(old(sessions), hold.objects, playerObjects, clock)
    {
      ghost var before, want := sessions, Died(sessions, hold.objects, playerObjects, clock);
      var dying := CollectDying();
      var k := 0;
      while k < |dying|
        invariant 0 <= k <= |dying| && Valid()
        invariant Between(before, sessions, want, Unread(before, hold.objects, dying[..k]))
      {
        var found, id := FindSessionByObjectId(dying[k]);
        UnreadStep(before, hold.objects, dying, k, found, id);
        if found {
          MarkStep(before, sessions, want, Unread(before, hold.objects, dying[..k]), id, clock);
          sessions := sessions[id := MarkLeaving(sessions[id], DEAD, 0, clock)];
        }
        k := k + 1;
      }
      DeathsDone(before, sessions, hold.objects, playerObjects, clock, dying);
    }

    method DetectDisconnectedSessions(nowMs: u32, clock: int)
      modifies this`sessions
      ensures sessions == Silenced(old(sessions), nowMs, clock)
    {
      ghost var before, want := sessions, Silenced(sessions, nowMs, clock);
      var todo := sessions.Keys;
      while todo != {}
        invariant todo <= before.Keys && Between(before, sessions, want, todo)
        decreases todo
      {
        SomeMember(todo);
        var j: int :| j in todo;
        if sessions[j].state == INPLAY && sessions[j].leaveState == STAYING {
          if sessions[j].lastEchoTs != 0 && Minus(nowMs, sessions[j].lastEchoTs) >= DISCONNECT_TIMEOUT_MS {
            sessions := sessions[j := MarkLeaving(sessions[j], DISCONNECTED, 0, clock)];
          }
        }
        todo := todo - {j};
      }
      BetweenDone(before, sessions, want, todo);
    }

    method ClearQueues()
      modifies this`sessions
      ensures sessions == AllCleared(old(sessions))
    {
      ghost var before, want := sessions, AllCleared(sessions);
      var todo := sessions.Keys;
      while todo != {}
        invariant todo <= before.Keys && Between(before, sessions, want, todo)
        decreases todo
      {
        SomeMember(todo);
        var j: int :| j in todo;
        if sessions[j].leaveState == PENDING {
          sessions := sessions[j := ClearPendingExcept(sessions[j], sessions[j].notifyRSeq)];
        }
        todo := todo - {j};
      }
      BetweenDone(before, sessions, want, todo);
    }

    // ---- Settling ----

    method ReleaseNpcAuthority(body: int)
      modifies this`npcs, this`told
      ensures body == NOBODY ==> npcs == old(npcs) && told == old(told)
      ensures body != NOBODY ==>
        npcs == ReleaseNpcs(old(npcs), {body}) && told == TellReleased(old(npcs), old(told), {body})
    {
      if body == NOBODY { return; }
      var todo := npcs.Keys;
      ReleaseEnds(npcs, told, body);
      while todo != {}
        invariant todo <= npcs.Keys
        invariant npcs == ReleaseSome(old(npcs), body, todo) && told == TellSome(old(npcs), old(told), body, todo)
        decreases todo
      {
        SomeMember(todo);
        var n: int :| n in todo;
        ReleaseStep(old(npcs), old(told), body, todo, n);
        if IsAuthority(npcs[n], body) {
          npcs := npcs[n := Released(npcs[n])];
          told := told[n := npcs[n].target];
        }
        todo := todo - {n};
      }
    }

    /** The room's side of a departure: the session's container, the NPCs it drives and its object. */
    method DropBody(id: int) returns (hadBody: bool)
      requires Valid() && id in sessions
      modifies this`hold, this`npcs, this`told, this`playerObjects
      ensures Valid() && hadBody == (old(hold).objects[id] in old(playerObjects))
      ensures hold == O.Leave(old(hold), {id})
      ensures playerObjects == old(playerObjects) - BodyOf(old(hold), id)
      ensures npcs == ReleaseNpcs(old(npcs), BodyOf(old(hold), id))
        && told == TellReleased(old(npcs), old(told), BodyOf(old(hold), id))
    {
      var body := hold.objects[id];
      LeaveOne(hold, id);
      LeaveKeepsApart(hold, {id});
      ReleaseNoNpcs(npcs, told);
      ReleaseInteractingContainer(id);
      ReleaseNpcAuthority(body);
      hadBody := body != NOBODY && body in playerObjects;
      if hadBody { playerObjects := playerObjects - {body}; }
      hold := hold.(objects := hold.objects[id := NOBODY]);
    }

    /** A dead player with a body leaves a container with everything; one cut off loses everything. */
    method DetachPlayer(id: int) returns (ghost mid: Room)
      requires Valid() && id in sessions && sessions[id].leaveState == PENDING
      modifies this`sessions, this`hold, this`npcs, this`told, this`playerObjects, this`nextObjectId, this`loot
      ensures Valid() && DetachedOne(old(Abs()), mid, id) && Fits(old(World()), mid, id, World())
    {
      var things, dead := sessions[id].items, sessions[id].reason == DEAD;
      var hadBody := Withdraw(id);
      mid := Abs();
      if hadBody && dead { SpawnPlayerLootContainer(things); }
    }

    /** Everything of a departure but the container. */
    method Withdraw(id: int) returns (hadBody: bool)
      requires Valid() && id in sessions && sessions[id].leaveState == PENDING
      modifies this`sessions, this`hold, this`npcs, this`told, this`playerObjects
      ensures Valid() && DetachedOne(old(Abs()), Abs(), id) && hadBody == (old(hold).objects[id] in old(playerObjects))
    {
      var s := sessions[id];
      var reason := s.reason;
      s := s.(recall := EndRecall(s.recall), state := if reason == DEAD then SPECTATING else LEFT);
      hadBody := DropBody(id);
      if hadBody && (reason == DEAD || reason == DISCONNECTED) { s := s.(items := multiset{}); }
      sessions := sessions[id := NotifyLeftOnce(s.(leaveState := DETACHED))];
    }

    method FinalizeIfReady(id: int, now: int)
      requires id in sessions
      modifies this`sessions
      ensures sessions == old(sessions)[id := FinalizedIfReady(old(sessions)[id], now)]
      ensures World() == L.World(old(Abs()).(sessions := sessions), old(loot))
    {
      if sessions[id].leaveState == DETACHED && IsFinalizeReady(sessions[id], now) {
        sessions := sessions[id := FinalizeLeave(sessions[id])];
      }
    }

    method DetachIfPending(id: int) returns (ghost mid: Room)
      requires Valid() && id in sessions
      modifies this`sessions, this`hold, this`npcs, this`told, this`playerObjects, this`nextObjectId, this`loot
      ensures Valid() && Fits(old(World()), mid, id, World())
      ensures if old(sessions)[id].leaveState == PENDING then DetachedOne(old(Abs()), mid, id) else mid == old(Abs())
    {
      mid := Abs();
      if sessions[id].leaveState == PENDING { mid := DetachPlayer(id); }
    }

    method SettleSession(id: int, now: int) returns (ghost q: Room)
      requires Valid() && id in sessions
      modifies this`sessions, this`hold, this`npcs, this`told, this`playerObjects, this`nextObjectId, this`loot
      ensures Valid() && SettledOne(old(Abs()), q, id, now) && Fits(old(World()), q, id, World())
    {
      ghost var mid := DetachIfPending(id);
      ghost var w := World();
      FinalizeIfReady(id, now);
      q := mid.(sessions := sessions);
      SettledWhole(old(World()), mid, id, w, sessions, now);
    }

    /** One round of the settling loop: one session fewer to go. */
    method SettleNext(id: int, now: int, ghost m: L.World, ghost order: seq<int>)
      requires Valid() && id in m.room.sessions && id !in order && Sound(m.room)
      requires World() == SettledBy(m, order, now)
      modifies this`sessions, this`hold, this`npcs, this`told, this`playerObjects, this`nextObjectId, this`loot
      ensures Valid() && World() == SettledBy(m, order + [id], now)
    {
      SettledBySessions(m, order, id, now);
      ghost var q := SettleSession(id, now);
      SettleStep(m, old(World()), q, World(), order, id, now);
    }

    method SettleAll(now: int) returns (ghost order: seq<int>)
      requires Valid()
      modifies this`sessions, this`hold, this`npcs, this`told, this`playerObjects, this`nextObjectId, this`loot
      ensures Valid() && L.Lists(order, old(sessions).Keys) && World() == SettledBy(old(World()), order, now)
    {
      order := [];
      ghost var m := World();
      var todo := sessions.Keys;
      SettledByNone(m, now);
      while todo != {}
        invariant Valid() && Met(order, todo, m.room.sessions.Keys) && World() == SettledBy(m, order, now)
        decreases todo
      {
        SomeMember(todo);
        var j: int :| j in todo;
        MetOneMore(order, todo, m.room.sessions.Keys, j);
        SettleNext(j, now, m, order);
        order := order + [j];
        todo := todo - {j};
      }
    }

    method CheckAllLeft()
      modifies this`allLeftReported, this`destroyRequests
      ensures Abs() == RoomModel.CheckAllLeft(old(Abs()))
    {
      if allLeftReported { return; }
      var todo := sessions.Keys;
      while todo != {}
        invariant todo <= sessions.Keys && Abs() == old(Abs())
        invariant forall i <- sessions | i !in todo :: sessions[i].leaveState == FINALIZED
        decreases todo
      {
        SomeMember(todo);
        var j: int :| j in todo;
        if sessions[j].leaveState != FINALIZED { return; }
        todo := todo - {j};
      }
      allLeftReported := true;
      destroyRequests := destroyRequests + 1;
    }

    method MarkPhase(now: int, clock: int, nowMs: u32)
      requires Valid()
      modifies this`sessions, this`lifetimeExpired
      ensures Valid() && World() == L.World(MarkAll(old(Abs()), now, clock, nowMs), loot)
    {
      MarkLoops(now, clock, nowMs);
    }

    method MarkLoops(now: int, clock: int, nowMs: u32)
      requires Valid()
      modifies this`sessions, this`lifetimeExpired
      ensures lifetimeExpired == (old(lifetimeExpired) || Expires(old(Abs()), now))
      ensures sessions
        == MarkSessions(old(sessions), hold.objects, playerObjects, Expires(old(Abs()), now), clock, nowMs)
    {
      MarkedInTurn(sessions, hold.objects, playerObjects, Expires(Abs(), now), clock, nowMs);
      if !lifetimeExpired && ElapsedMs(createdAt, now) >= ROOM_LIFETIME_MS {
        lifetimeExpired := true;
        AllKill(clock);
      }
      MarkDeaths(clock);
      DetectDisconnectedSessions(nowMs, clock);
      ClearQueues();
    }

    method SettlePhase(now: int) returns (ghost order: seq<int>)
      requires Valid()
      modifies this`sessions, this`hold, this`npcs, this`told, this`playerObjects, this`nextObjectId, this`loot,
        this`allLeftReported, this`destroyRequests
      ensures Valid() && L.Lists(order, old(sessions).Keys) && World() == SettledAndChecked(old(World()), order, now)
    {
      ghost var m := World();
      order := SettleAll(now);
      CheckAllLeft();
      CheckedAfterBurying(m, order, now);
    }

    /** One pass over the room, in whatever order the maps yield; order is that of the settling loop, and only
        the numbers of the dead players' containers depend on it. */
    method ProcessLeaves(now: int, clock: int, nowMs: u32) returns (ghost order: seq<int>)
      requires Valid()
      modifies this
      ensures Valid() && L.Lists(order, old(sessions).Keys)
      ensures World() == L.Passed(old(World()), now, clock, nowMs, order)
    {
      MarkPhase(now, clock, nowMs);
      order := SettlePhase(now);
      PassedIs(old(World()), now, clock, nowMs, order);
    }
  }

  // ---- Settling one session at a time ----

  ghost predicate Sound(r: Room) { KeysAgree(r) && NOBODY !in r.players && Apart(r.hold.objects) }

  lemma LeaveNone(h: O.State)
    ensures O.Leave(h, {}) == h
  {}

  lemma ReleaseNoNpcs(npcs: map<int, Npc>, told: map<int, int>)
    ensures ReleaseNpcs(npcs, {}) == npcs && TellReleased(npcs, told, {}) == told
  {}

  lemma SettleNone(r: Room, now: int)
    requires KeysAgree(r)
    ensures Settle(r, {}, now) == r
  {
    assert Gone(r, {}) == {} && Bodies(r, {}) == {};
    LeaveNone(r.hold);
    ReleaseNoNpcs(r.npcs, r.told);
  }

  lemma SettleNobody(r: Room, id: int)
    requires KeysAgree(r) && id in r.sessions && r.sessions[id].leaveState != PENDING
    ensures O.Leave(r.hold, Gone(r, {id})) == r.hold && Bodies(r, Gone(r, {id})) == {}
    ensures ReleaseNpcs(r.npcs, {}) == r.npcs && TellReleased(r.npcs, r.told, {}) == r.told
  {
    assert Gone(r, {id}) == {};
    LeaveNone(r.hold);
    ReleaseNoNpcs(r.npcs, r.told);
  }

  lemma BodiesOfOne(r: Room, id: int)
    requires KeysAgree(r) && id in r.sessions && r.sessions[id].leaveState == PENDING
    ensures Gone(r, {id}) == {id}
    ensures Bodies(r, {id}) == BodyOf(r.hold, id)
  {
    assert Gone(r, {id}) == {id};
    forall p ensures p in Bodies(r, {id}) <==> p == r.hold.objects[id] && p != NOBODY {}
  }

  ghost predicate DetachedOne(r: Room, q: Room, id: int)
    requires KeysAgree(r) && id in r.sessions
  {
    q == r.(sessions := r.sessions[id := Detached(r.sessions[id], r.hold.objects[id] in r.players)],
            hold := O.Leave(r.hold, {id}), players := r.players - BodyOf(r.hold, id),
            npcs := ReleaseNpcs(r.npcs, BodyOf(r.hold, id)), told := TellReleased(r.npcs, r.told, BodyOf(r.hold, id)))
  }

  /** What one step of the settling loop makes of the room. */
  ghost predicate SettledOne(r: Room, q: Room, id: int, now: int)
    requires KeysAgree(r) && id in r.sessions
  {
    && q.sessions == r.sessions[id := Settled(r.sessions[id], r.hold.objects[id] in r.players, now)]
    && q == r.(sessions := q.sessions, hold := q.hold, players := q.players, npcs := q.npcs, told := q.told)
    && if r.sessions[id].leaveState == PENDING then
         && q.hold == O.Leave(r.hold, {id}) && q.players == r.players - BodyOf(r.hold, id)
         && q.npcs == ReleaseNpcs(r.npcs, BodyOf(r.hold, id))
           && q.told == TellReleased(r.npcs, r.told, BodyOf(r.hold, id))
       else q.hold == r.hold && q.players == r.players && q.npcs == r.npcs && q.told == r.told
  }

  function FinalizedIfReady(s: Session, now: int): Session {
    if s.leaveState == DETACHED && IsFinalizeReady(s, now) then FinalizeLeave(s) else s
  }

  lemma SettledFromDetached(r: Room, mid: Room, q: Room, id: int, now: int)
    requires KeysAgree(r) && id in r.sessions
    requires if r.sessions[id].leaveState == PENDING then DetachedOne(r, mid, id) else mid == r
    requires q == mid.(sessions := mid.sessions[id := FinalizedIfReady(mid.sessions[id], now)])
    ensures SettledOne(r, q, id, now)
  {}

  lemma SettleOne(r: Room, q: Room, id: int, now: int)
    requires KeysAgree(r) && id in r.sessions && SettledOne(r, q, id, now)
    ensures q == Settle(r, {id}, now)
  {
    if r.sessions[id].leaveState == PENDING { BodiesOfOne(r, id); } else { SettleNobody(r, id); }
    assert q.sessions == SettleSessions(r.sessions, Bodied(r.hold.objects, r.players), {id}, now);
  }

  /** Of a marked room: the listed sessions settled, and the containers of the dead among them added. */
  ghost function SettledBy(m: L.World, order: seq<int>, now: int): L.World
    requires KeysAgree(m.room)
  {
    L.Bury(Settle(m.room, Members(order), now), m.loot, m.room.sessions, L.Corpses(m.room, order))
  }

  ghost function Members(order: seq<int>): set<int> { set i | i in order }

  lemma SettleSpawn(r: Room, ids: set<int>, now: int)
    requires KeysAgree(r)
    ensures Settle(SpawnLoot(r), ids, now) == SpawnLoot(Settle(r, ids, now))
  {
    LeaveSpawn(r.hold, Gone(r, ids), r.nextObjectId);
    assert Gone(SpawnLoot(r), ids) == Gone(r, ids) && Bodies(SpawnLoot(r), Gone(r, ids)) == Bodies(r, Gone(r, ids));
  }

  lemma LeaveSpawn(h: O.State, gone: set<int>, c: int)
    ensures O.Leave(h.(holders := h.holders[c := NOBODY]), gone)
      == O.Leave(h, gone).(holders := O.Leave(h, gone).holders[c := NOBODY])
  {
    var h' := h.(holders := h.holders[c := NOBODY]);
    forall k | k in h'.holders && k != c ensures O.LeavesFree(h', gone, k) <==> O.LeavesFree(h, gone, k) {}
  }

  /** The containers added so far change nothing about settling the next session. */
  lemma {:induction false} SettleBoxes(r: Room, n: nat, ids: set<int>, now: int)
    requires KeysAgree(r)
    ensures KeysAgree(L.Boxes(r, n)) && Settle(L.Boxes(r, n), ids, now) == L.Boxes(Settle(r, ids, now), n)
  {
    L.BoxesAre(r, n);
    if n > 0 {
      SettleBoxes(r, n - 1, ids, now);
      SettleSpawn(L.Boxes(r, n - 1), ids, now);
    }
  }

  /** A session not yet settled is as it was. */
  lemma SettledBySessions(m: L.World, order: seq<int>, id: int, now: int)
    requires Sound(m.room) && id in m.room.sessions && id !in order
    ensures var w := SettledBy(m, order, now);
      && KeysAgree(w.room) && id in w.room.sessions && w.room.sessions[id] == m.room.sessions[id]
      && (L.IsCorpse(w.room, id) <==> L.IsCorpse(m.room, id))
      && w.room.nextObjectId == m.room.nextObjectId + |L.Corpses(m.room, order)|
  {
    L.BoxesAre(Settle(m.room, Members(order), now), |L.Corpses(m.room, order)|);
    StillBodied(m.room, Members(order), id, now);
  }

  lemma StepRoom(r: Room, n: nat, q: Room, id: int, now: int)
    requires KeysAgree(r) && id in r.sessions && KeysAgree(L.Boxes(r, n)) && id in L.Boxes(r, n).sessions
      && SettledOne(L.Boxes(r, n), q, id, now)
    ensures q == L.Boxes(Settle(r, {id}, now), n)
  {
    SettleOne(L.Boxes(r, n), q, id, now);
    SettleBoxes(r, n, {id}, now);
  }

  lemma StepIsSettled(m: Room, n: nat, q: Room, order: seq<int>, id: int, now: int)
    requires Sound(m) && id in m.sessions && id !in order
    requires var r := L.Boxes(Settle(m, Members(order), now), n);
      KeysAgree(r) && id in r.sessions && SettledOne(r, q, id, now)
    ensures q == L.Boxes(Settle(m, Members(order + [id]), now), n)
  {
    assert Members(order + [id]) == Members(order) + {id};
    StepRoom(Settle(m, Members(order), now), n, q, id, now);
    SettleOneMore(m, Members(order), id, now);
  }

  /** What settling session id made of the world: q, and the container of a dead one. */
  ghost predicate Fits(w: L.World, q: Room, id: int, w': L.World)
    requires id in w.room.sessions
  {
    if L.IsCorpse(w.room, id)
    then w' == L.World(SpawnLoot(q), w.loot[w.room.nextObjectId := w.room.sessions[id].items])
    else w' == L.World(q, w.loot)
  }

  lemma FitsLater(w: L.World, mid: Room, id: int, w': L.World, sessions: map<int, Session>)
    requires id in w.room.sessions && Fits(w, mid, id, w')
    ensures Fits(w, mid.(sessions := sessions), id, L.World(w'.room.(sessions := sessions), w'.loot))
    ensures w'.room.sessions == mid.sessions
  {}

  lemma SettledWhole(w: L.World, mid: Room, id: int, w': L.World, sessions: map<int, Session>, now: int)
    requires KeysAgree(w.room) && id in w.room.sessions && Fits(w, mid, id, w')
    requires if w.room.sessions[id].leaveState == PENDING then DetachedOne(w.room, mid, id) else mid == w.room
    requires id in w'.room.sessions && sessions == w'.room.sessions[id := FinalizedIfReady(w'.room.sessions[id], now)]
    ensures var q := mid.(sessions := sessions);
      SettledOne(w.room, q, id, now) && Fits(w, q, id, L.World(w'.room.(sessions := sessions), w'.loot))
  {
    FitsLater(w, mid, id, w', sessions);
    SettledFromDetached(w.room, mid, mid.(sessions := sessions), id, now);
  }

  lemma StepIsBuried(m: L.World, s0: Room, s1: Room, w: L.World, q: Room, w': L.World, corpses: seq<int>,
      more: seq<int>, id: int)
    requires id in m.room.sessions && id in w.room.sessions && w.room.sessions[id] == m.room.sessions[id]
    requires s0.nextObjectId == s1.nextObjectId == m.room.nextObjectId
      && w.room.nextObjectId == m.room.nextObjectId + |corpses|
    requires w == L.Bury(s0, m.loot, m.room.sessions, corpses) && q == L.Boxes(s1, |corpses|)
    requires Fits(w, q, id, w') && more == corpses + if L.IsCorpse(w.room, id) then [id] else []
    ensures w' == L.Bury(s1, m.loot, m.room.sessions, more)
  {
    if L.IsCorpse(w.room, id) {
      L.BuryMore(s1, m.loot, m.room.sessions, corpses, id, more);
    } else {
      assert more == corpses;
    }
  }

  lemma SettleNumber(r: Room, ids: set<int>, now: int)
    requires KeysAgree(r)
    ensures Settle(r, ids, now).nextObjectId == r.nextObjectId
  {}

  lemma SettleStep(m: L.World, w: L.World, q: Room, w': L.World, order: seq<int>, id: int, now: int)
    requires Sound(m.room) && id in m.room.sessions && id !in order && w == SettledBy(m, order, now)
    requires KeysAgree(w.room) && id in w.room.sessions && SettledOne(w.room, q, id, now) && Fits(w, q, id, w')
    ensures w' == SettledBy(m, order + [id], now)
  {
    SettledBySessions(m, order, id, now);
    StepIsSettled(m.room, |L.Corpses(m.room, order)|, q, order, id, now);
    SettleNumber(m.room, Members(order), now);
    SettleNumber(m.room, Members(order + [id]), now);
    L.CorpsesMore(m.room, order, id);
    StepIsBuried(m, Settle(m.room, Members(order), now), Settle(m.room, Members(order + [id]), now), w, q, w',
                 L.Corpses(m.room, order), L.Corpses(m.room, order + [id]), id);
  }

  lemma SettledByNone(m: L.World, now: int)
    requires KeysAgree(m.room)
    ensures SettledBy(m, [], now) == m
  {
    assert Members([]) == {};
    SettleNone(m.room, now);
  }

  /** The loop has met those in order and has those in todo to go. */
  ghost predicate Met(order: seq<int>, todo: set<int>, keys: set<int>) {
    && L.Distinct(order) && (forall i: int :: i in keys <==> i in order || i in todo)
    && forall i: int :: !(i in order && i in todo)
  }

  lemma MetOneMore(order: seq<int>, todo: set<int>, keys: set<int>, j: int)
    requires Met(order, todo, keys) && j in todo
    ensures Met(order + [j], todo - {j}, keys) && j !in order && j in keys
  {
    forall i: int ensures i in order + [j] <==> i in order || i == j {}
  }

  lemma MembersAre(order: seq<int>, keys: set<int>)
    requires L.Lists(order, keys)
    ensures Members(order) == keys
  {
    forall i: int ensures i in Members(order) <==> i in keys {}
  }

  lemma CheckBoxes(r: Room, n: nat)
    ensures RoomModel.CheckAllLeft(L.Boxes(r, n)) == L.Boxes(RoomModel.CheckAllLeft(r), n)
  {
    L.BoxesAre(r, n);
    L.BoxesAre(RoomModel.CheckAllLeft(r), n);
  }

  ghost function SettledAndChecked(m: L.World, order: seq<int>, now: int): L.World
    requires KeysAgree(m.room)
  {
    L.Bury(RoomModel.CheckAllLeft(Settle(m.room, m.room.sessions.Keys, now)), m.loot, m.room.sessions,
        L.Corpses(m.room, order))
  }

  lemma CheckBury(r: Room, loot: map<int, multiset<int>>, sessions: map<int, Session>, corpses: seq<int>)
    ensures var w := L.Bury(r, loot, sessions, corpses);
      L.World(RoomModel.CheckAllLeft(w.room), w.loot) == L.Bury(RoomModel.CheckAllLeft(r), loot, sessions, corpses)
  {
    CheckBoxes(r, |corpses|);
  }

  lemma CheckedAfterBurying(m: L.World, order: seq<int>, now: int)
    requires KeysAgree(m.room) && L.Lists(order, m.room.sessions.Keys)
    ensures var w := SettledBy(m, order, now);
      L.World(RoomModel.CheckAllLeft(w.room), w.loot) == SettledAndChecked(m, order, now)
  {
    MembersAre(order, m.room.sessions.Keys);
    CheckBury(Settle(m.room, m.room.sessions.Keys, now), m.loot, m.room.sessions, L.Corpses(m.room, order));
  }

  lemma PassedIs(w: L.World, now: int, clock: int, nowMs: u32, order: seq<int>)
    requires KeysAgree(w.room)
    ensures L.Passed(w, now, clock, nowMs, order)
      == SettledAndChecked(L.World(MarkAll(w.room, now, clock, nowMs), w.loot), order, now)
  {}

  lemma LeaveTwice(h: O.State, g1: set<int>, g2: set<int>)
    requires g1 !! g2
    ensures O.Leave(O.Leave(h, g1), g2) == O.Leave(h, g1 + g2)
  {
    var m := O.Leave(h, g1);
    forall c | c in h.holders
      ensures O.LeavesFree(h, g1 + g2, c) <==>
        O.LeavesFree(h, g1, c) || (O.LeavesFree(m, g2, c) && m.holders[c] == h.holders[c])
      ensures O.LeavesFree(m, g2, c) && h.holders[c] != NOBODY ==> O.LeavesFree(h, g1 + g2, c)
    {}
  }

  lemma ReleaseTwice(npcs: map<int, Npc>, b1: set<int>, b2: set<int>)
    requires NO_TARGET !in b1 + b2
    ensures ReleaseNpcs(ReleaseNpcs(npcs, b1), b2) == ReleaseNpcs(npcs, b1 + b2)
  {
    var once, both := ReleaseNpcs(npcs, b1), ReleaseNpcs(npcs, b1 + b2);
    var twice := ReleaseNpcs(once, b2);
    forall n | n in npcs ensures twice[n] == both[n] {
      assert npcs[n].target in b1 ==> once[n].target == NO_TARGET;
    }
  }

  lemma TellTwice(npcs: map<int, Npc>, told: map<int, int>, b1: set<int>, b2: set<int>)
    requires NO_TARGET !in b1 + b2
    ensures TellReleased(ReleaseNpcs(npcs, b1), TellReleased(npcs, told, b1), b2) == TellReleased(npcs, told, b1 + b2)
  {}

  lemma GoneMore(r: Room, ids: set<int>, id: int, now: int)
    requires KeysAgree(r) && id in r.sessions && id !in ids
    ensures var q := Settle(r, ids, now);
      && Gone(r, ids + {id}) == Gone(r, ids) + Gone(q, {id}) && Gone(r, ids) !! Gone(q, {id})
      && Bodies(r, Gone(r, ids + {id})) == Bodies(r, Gone(r, ids)) + Bodies(q, Gone(q, {id}))
  {
    var q := Settle(r, ids, now);
    assert q.sessions[id] == r.sessions[id] && q.hold.objects[id] == r.hold.objects[id];
    assert Gone(r, ids + {id}) == Gone(r, ids) + Gone(q, {id});
    forall p
      ensures p in Bodies(r, Gone(r, ids + {id})) <==> p in Bodies(r, Gone(r, ids)) || p in Bodies(q, Gone(q, {id}))
    {
      if p in Bodies(r, Gone(r, ids + {id})) {
        var i :| i in Gone(r, ids + {id}) && r.hold.objects[i] == p && p != NOBODY;
        if i == id { assert q.hold.objects[id] == p; }
      }
    }
  }

  /** Nobody else leaving takes id's object out of the room. */
  lemma StillBodied(r: Room, ids: set<int>, id: int, now: int)
    requires Sound(r) && id in r.sessions && id !in ids
    ensures var q := Settle(r, ids, now);
      id in Bodied(q.hold.objects, q.players) <==> id in Bodied(r.hold.objects, r.players)
  {}

  lemma SettleSessionsMore(sessions: map<int, Session>, b1: set<int>, b2: set<int>, ids: set<int>, id: int, now: int)
    requires id !in ids && (id in b1 <==> id in b2)
    ensures SettleSessions(SettleSessions(sessions, b1, ids, now), b2, {id}, now)
      == SettleSessions(sessions, b1, ids + {id}, now)
  {}

  /** The order of the loop does not matter: settling one more session settles the set with it added. */
  lemma SettleOneMore(r: Room, ids: set<int>, id: int, now: int)
    requires Sound(r) && id in r.sessions && id !in ids
    ensures Settle(Settle(r, ids, now), {id}, now) == Settle(r, ids + {id}, now)
  {
    var q := Settle(r, ids, now);
    GoneMore(r, ids, id, now);
    StillBodied(r, ids, id, now);
    LeaveTwice(r.hold, Gone(r, ids), Gone(q, {id}));
    ReleaseTwice(r.npcs, Bodies(r, Gone(r, ids)), Bodies(q, Gone(q, {id})));
    TellTwice(r.npcs, r.told, Bodies(r, Gone(r, ids)), Bodies(q, Gone(q, {id})));
    SettleSessionsMore(r.sessions, Bodied(r.hold.objects, r.players), Bodied(q.hold.objects, q.players), ids, id, now);
    assert q.players - Bodies(q, Gone(q, {id})) == r.players - Bodies(r, Gone(r, ids + {id}));
  }
}
