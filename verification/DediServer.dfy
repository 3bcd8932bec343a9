/** The Dedicated server's tables: session slots, the queue of free ids and the rooms. */
module DediServers {
  import opened UInt32
  import opened CapacityModel
  import opened Sets
  import M = SessionModel
  import opened PlayerSessions

  const RETRANSMIT_INTERVAL_MS := 50
  const ROOM_DESTROY_INTERVAL_MS := 1000

  /** At least ms whole milliseconds have gone by. */
  predicate IsDue(last: int, clock: int, ms: nat) { clock - last >= ms * M.TICKS_PER_MS }

  function Front(list: seq<int>): seq<int>
    requires list != []
  {
    list[..|list| - 1]
  }

  /** The rooms of the list destroyed one after the other, those missing skipped. */
  ghost predicate RoomsGone(d: Dedi, list: seq<int>, d': Dedi) {
    if list == [] then d' == d
    else exists mid {:trigger RoomsGone(d, Front(list), mid)} ::
        RoomsGone(d, Front(list), mid) && MaybeGone(mid, list[|list| - 1], d')
  }

  ghost predicate MaybeGone(d: Dedi, room: int, d': Dedi) {
    if room in d.rooms then exists order :: RoomGone(d, d', room, order) else d' == d
  }

  /** One report per room, when it is first met. */
  function Counts(rooms: map<int, set<int>>, list: seq<int>): seq<nat> {
    if list == [] then []
    else
      var init, room := Front(list), list[|list| - 1];
      Counts(rooms, init) + if room in rooms && room !in Items(init) then [|rooms[room]|] else []
  }

  /** The ids of the listed rooms. */
  function IdsIn(rooms: map<int, set<int>>, list: seq<int>): set<int> {
    if list == [] then {}
    else IdsIn(rooms, Front(list)) + if list[|list| - 1] in rooms then rooms[list[|list| - 1]] else {}
  }

  lemma {:induction false} IdsInHas(rooms: map<int, set<int>>, list: seq<int>, room: int)
    requires room in list && room in rooms
    ensures rooms[room] <= IdsIn(rooms, list)
  {
    if room != list[|list| - 1] { IdsInHas(rooms, Front(list), room); }
  }

  class DediServerService {
    var players: seq<int>
    var freePlayerIds: seq<int>
    var gameRooms: map<int, set<int>>
    var lastRoomId: nat
    var pendingDestroyRooms: seq<int>
    var retransmitPhase: nat
    var lastRetransmitTime: int
    var lastRoomDestroyTime: int
    // What was reported to Main: one player count per destroyed room.
    ghost var notices: seq<nat>

    ghost function View(): Dedi reads this { Dedi(players, freePlayerIds, gameRooms, lastRoomId) }

    constructor (clock: int)
      ensures IdsOk(View()) && View().free == seq(MAX_PLAYER_PER_PROCESS, i => i) && gameRooms == map[]
      ensures |players| == MAX_PLAYER_PER_PROCESS + 1 && notices == [] && pendingDestroyRooms == []
      ensures lastRetransmitTime == lastRoomDestroyTime == clock && retransmitPhase == 0
    {
      players := seq(MAX_PLAYER_PER_PROCESS + 1, _ => NONE);
      freePlayerIds := seq(MAX_PLAYER_PER_PROCESS, i => i);
      gameRooms, lastRoomId, pendingDestroyRooms, notices, retransmitPhase := map[], 0, [], [], 0;
      lastRetransmitTime, lastRoomDestroyTime := clock, clock;
      new;
      forall id | 0 <= id < MAX_PLAYER_PER_PROCESS ensures id in freePlayerIds { assert freePlayerIds[id] == id; }
    }

    /** The oldest free id, or a new slot when there is none. */
    method GetFreeSessionId() returns (id: int)
      modifies this`players, this`freePlayerIds
      ensures id == if old(freePlayerIds) != [] then old(freePlayerIds)[0] else |old(players)|
      ensures if old(freePlayerIds) != [] then freePlayerIds == old(freePlayerIds)[1..] && players == old(players)
              else freePlayerIds == [] && players == old(players) + [NONE]
    {
      if freePlayerIds != [] {
        id := freePlayerIds[0];
        freePlayerIds := freePlayerIds[1..];
        return;
      }
      id := |players|;
      players := players + [NONE];
    }

    /** One session per player of the group. */
    method RegisterPlayers(uids: seq<int>) returns (ids: set<int>)
      requires IdsOk(View())
      modifies this`players, this`freePlayerIds
      ensures GrantedSoFar(old(View()), players, freePlayerIds, ids, uids, |uids|)
    {
      ghost var d := View();
      ids := {};
      var k := 0;
      while k < |uids|
        invariant 0 <= k <= |uids| && GrantedSoFar(d, players, freePlayerIds, ids, uids, k)
      {
        ghost var before, free := players, freePlayerIds;
        var id := GetFreeSessionId();
        GrantedMore(d, before, free, ids, uids, k, players, freePlayerIds, id);
        players := players[id := uids[k]];
        ids := ids + {id};
        k := k + 1;
      }
    }

    /** An unknown map still uses up a room number. */
    method MakeRoomForThisGroup(pkt: Packet) returns (ok: bool)
      requires IdsOk(View())
      modifies this`players, this`freePlayerIds, this`gameRooms, this`lastRoomId
      ensures IdsOk(View()) && ok == pkt.knownMap
      ensures ok ==> RoomMade(old(View()), View(), pkt.uids)
      ensures !ok ==> View() == old(View()).(lastRoom := old(lastRoomId) + 1)
    {
      ghost var d := View();
      lastRoomId := lastRoomId + 1;
      if !pkt.knownMap {
        assert forall id :: Live(d, id) <==> Live(View(), id);
        return false;
      }
      NumberOnly(d, View(), |pkt.uids|);
      var ids := RegisterPlayers(pkt.uids);
      gameRooms := gameRooms[lastRoomId := ids];
      MakeRoomKeeps(d, View(), pkt.uids);
      ok := true;
    }

    method DestroyRoom(roomId: int)
      requires IdsOk(View())
      modifies this`players, this`freePlayerIds, this`gameRooms, this`notices
      ensures IdsOk(View())
      ensures roomId !in old(gameRooms) ==> View() == old(View()) && notices == old(notices)
      ensures roomId in old(gameRooms) ==>
        notices == old(notices) + [|old(gameRooms)[roomId]|] && exists order ::
            RoomGone(old(View()), View(), roomId, order)
    {
      if roomId !in gameRooms { return; }
      notices := notices + [|gameRooms[roomId]|];
      ghost var order := ReturnIds(gameRooms[roomId]);
      gameRooms := gameRooms - {roomId};
      assert RoomGone(old(View()), View(), roomId, order);
      DestroyRoomKeeps(old(View()), View(), roomId, order);
    }

    /** A slot is emptied before its id goes back into the queue. */
    method ReturnIds(ids: set<int>) returns (ghost order: seq<int>)
      requires forall id <- ids :: 0 <= id < |players|
      modifies this`players, this`freePlayerIds
      ensures Distinct(order) && Items(order) == ids && freePlayerIds == old(freePlayerIds) + order
      ensures |players| == |old(players)|
      ensures forall id | 0 <= id < |players| :: players[id] == if id in ids then NONE else old(players)[id]
    {
      order := [];
      var todo := ids;
      while todo != {}
        invariant todo <= ids && |players| == |old(players)|
        invariant Distinct(order) && Items(order) == ids - todo && freePlayerIds == old(freePlayerIds) + order
        invariant forall id | 0 <= id < |players| ::
          players[id] == if id in ids && id !in todo then NONE else old(players)[id]
        decreases todo
      {
        SomeMember(todo);
        var id: int :| id in todo;
        if 0 <= id < |players| { players := players[id := NONE]; }
        OneMore(order, id);
        freePlayerIds := freePlayerIds + [id];
        order := order + [id];
        todo := todo - {id};
      }
    }

    /** Once a second; rooms reserved twice, or already gone, are skipped. */
    method DestroyPendingRooms(clock: int) returns (did: bool)
      requires IdsOk(View())
      modifies this`players, this`freePlayerIds, this`gameRooms, this`notices, this`pendingDestroyRooms,
        this`lastRoomDestroyTime
      ensures var due := clock - old(lastRoomDestroyTime) >= 1000 * 1_000_000;
        var list := old(pendingDestroyRooms);
        && did == (due && list != []) && lastRoomDestroyTime == (if due then clock else old(lastRoomDestroyTime))
        && (if did then pendingDestroyRooms == [] && RoomsGone(old(View()), list, View())
          else pendingDestroyRooms == list && View() == old(View()))
        && notices == old(notices) + (if did then Counts(old(gameRooms), list) else [])
      ensures IdsOk(View())
    {
      did := false;
      if !IsDue(lastRoomDestroyTime, clock, ROOM_DESTROY_INTERVAL_MS) { return; }
      lastRoomDestroyTime := clock;
      if pendingDestroyRooms == [] { return; }
      DestroyRooms(pendingDestroyRooms);
      pendingDestroyRooms := [];
      did := true;
    }

    method DestroyRooms(list: seq<int>)
      requires IdsOk(View())
      modifies this`players, this`freePlayerIds, this`gameRooms, this`notices
      ensures IdsOk(View()) && RoomsGone(old(View()), list, View())
        && notices == old(notices) + Counts(old(gameRooms), list)
    {
      ghost var d := View();
      var i := 0;
      while i < |list|
        invariant 0 <= i <= |list| && IdsOk(View()) && Destroyed(d, list[..i], View(), old(notices), notices)
      {
        DestroyNext(list, i, d, old(notices));
        i := i + 1;
      }
      assert list[..i] == list;
    }

    method DestroyNext(list: seq<int>, i: nat, ghost d: Dedi, ghost told: seq<nat>)
      requires i < |list| && IdsOk(View()) && Destroyed(d, list[..i], View(), told, notices)
      modifies this`players, this`freePlayerIds, this`gameRooms, this`notices
      ensures IdsOk(View()) && Destroyed(d, list[..i + 1], View(), told, notices)
    {
      ghost var mid, before := View(), notices;
      DestroyRoom(list[i]);
      GoneOneMore(d, list, i, mid, View(), told, before, notices);
    }

    /** Every 50 ms: every other slot of the table, starting with the phase; the phase then flips, so that two
        rounds together serve each session that is not finalized once. */
    method CheckRetransmits(clock: int, nowMs: u32, sessions: seq<PlayerSession?>, starved: nat -> set<u32>)
        returns (did: bool)
      requires retransmitPhase < 2 && SessionTable(sessions)
      modifies this`retransmitPhase, this`lastRetransmitTime, sessions`pendingReliable
      ensures var due := clock - old(lastRetransmitTime) >= 50 * 1_000_000;
        && lastRetransmitTime == (if due then clock else old(lastRetransmitTime))
        && retransmitPhase == (if due then 1 - old(retransmitPhase) else old(retransmitPhase))
      ensures forall i: nat | i < |sessions| && sessions[i] != null :: var p := sessions[i];
        p.pendingReliable == if clock - old(lastRetransmitTime) >= 50 * 1_000_000
            && i % 2 == old(retransmitPhase) && p.leaveState != M.FINALIZED
          then Resent(old(p.pendingReliable), p.rttMs, nowMs, starved(i)) else old(p.pendingReliable)
      ensures did <==> clock - old(lastRetransmitTime) >= 50 * 1_000_000 && exists i: nat ::
        i < |sessions| && sessions[i] != null && old(Resends(i, retransmitPhase, nowMs, sessions, starved))
    {
      did := false;
      if !IsDue(lastRetransmitTime, clock, RETRANSMIT_INTERVAL_MS) { return; }
      lastRetransmitTime := clock;
      var phase := retransmitPhase;
      retransmitPhase := 1 - retransmitPhase;
      ghost var served;
      did, served := RetransmitFrom(phase, nowMs, sessions, starved);
      if i: nat :| i in served { assert did; }
    }

    method RetransmitFrom(phase: nat, nowMs: u32, sessions: seq<PlayerSession?>, starved: nat -> set<u32>)
      returns (did: bool, ghost served: set<nat>)
      requires phase < 2 && SessionTable(sessions)
      modifies sessions`pendingReliable
      ensures forall i: nat | i < |sessions| && sessions[i] != null :: var p := sessions[i];
        p.pendingReliable == if i % 2 == phase && p.leaveState != M.FINALIZED
          then Resent(old(p.pendingReliable), p.rttMs, nowMs, starved(i)) else old(p.pendingReliable)
      ensures did == (served != {})
      ensures forall i: nat :: i in served <==>
        i < |sessions| && sessions[i] != null && old(Resends(i, phase, nowMs, sessions, starved))
    {
      ghost var before := Pendings(sessions);
      NobodyYet(sessions, before, phase, nowMs, starved);
      did, served := RetransmitRound(phase, nowMs, sessions, starved, before);
    }

    method RetransmitRound(phase: nat, nowMs: u32, sessions: seq<PlayerSession?>, starved: nat -> set<u32>,
        ghost before: seq<map<u32, PendingPacket>>)
      returns (did: bool, ghost served: set<nat>)
      requires phase < 2 && SessionTable(sessions) && Underway(sessions, before, phase, phase, nowMs, starved, {})
      modifies sessions`pendingReliable
      ensures did == (served != {}) && RoundOver(sessions, before, phase, nowMs, starved, served)
    {
      did, served := false, {};
      var i := phase;
      while i < |sessions|
        invariant i % 2 == phase && did == (served != {})
          && Underway(sessions, before, i, phase, nowMs, starved, served)
      {
        var sent;
        sent, served := RetransmitNext(i, phase, nowMs, sessions, starved, before, served);
        did := did || sent;
        i := i + 2;
      }
      RoundDone(sessions, before, i, phase, nowMs, starved, served);
    }

    method RetransmitNext(i: nat, phase: nat, nowMs: u32, sessions: seq<PlayerSession?>, starved: nat -> set<u32>,
          ghost before: seq<map<u32, PendingPacket>>, ghost served: set<nat>)
              returns (sent: bool, ghost served': set<nat>)
      requires i < |sessions| && i % 2 == phase && SessionTable(sessions)
        && Underway(sessions, before, i, phase, nowMs, starved, served)
      modifies sessions`pendingReliable
      ensures Underway(sessions, before, i + 2, phase, nowMs, starved, served')
      ensures served' != {} <==> sent || served != {}
    {
      NextSlot(i, phase);
      sent := RetransmitSlot(nowMs, sessions[i], starved(i));
      served' := if sent then served + {i} else served;
    }

    method RetransmitSlot(nowMs: u32, p: PlayerSession?, starved: set<u32>) returns (sent: bool)
      modifies (if p == null then {} else {p})`pendingReliable
      ensures p != null && p.leaveState != M.FINALIZED ==>
        p.pendingReliable == Resent(old(p.pendingReliable), p.rttMs, nowMs, starved)
      ensures p != null && p.leaveState == M.FINALIZED ==> p.pendingReliable == old(p.pendingReliable)
      ensures sent <==> p != null && old(Sends(p, p.pendingReliable, true, nowMs, starved))
    {
      sent := false;
      if p != null && p.leaveState != M.FINALIZED {
        var out := p.Retransmit(nowMs, starved);
        sent := out != [];
      }
    }
  }

  ghost function Pendings(sessions: seq<PlayerSession?>): (r: seq<map<u32, PendingPacket>>)
    reads sessions
    ensures |r| == |sessions| && forall i | 0 <= i < |sessions| && sessions[i] != null ::
      r[i] == sessions[i].pendingReliable
  {
    seq(|sessions|, i requires 0 <= i < |sessions|
        reads sessions => if sessions[i] == null then map[] else sessions[i].pendingReliable)
  }

  /** What a round makes of a session whose pending packets were before: its turn or not. */
  ghost predicate Round(p: PlayerSession, before: map<u32, PendingPacket>, turn: bool, nowMs: u32, starved: set<u32>)
    reads p
  {
    p.pendingReliable == if turn && p.leaveState != M.FINALIZED then Resent(before, p.rttMs, nowMs, starved) else before
  }

  ghost predicate Sends(p: PlayerSession, before: map<u32, PendingPacket>, turn: bool, nowMs: u32, starved: set<u32>)
    reads p
  {
    turn && p.leaveState != M.FINALIZED && AnyOverdue(before, p.rttMs, nowMs, starved)
  }

  /** The slots of this parity below i have had their turn. */
  ghost predicate Passed(j: nat, i: nat, phase: nat) { j < i && j % 2 == phase }

  ghost predicate Underway(sessions: seq<PlayerSession?>, before: seq<map<u32, PendingPacket>>, i: nat, phase: nat,
      nowMs: u32,
      starved: nat -> set<u32>, served: set<nat>)
    reads sessions
  {
    && |before| == |sessions|
    && (forall j: nat | j < |sessions| && sessions[j] != null ::
      Round(sessions[j], before[j], Passed(j, i, phase), nowMs, starved(j)))
    && forall j: nat :: j in served <==>
      j < |sessions| && sessions[j] != null && Sends(sessions[j], before[j], Passed(j, i, phase), nowMs, starved(j))
  }

  lemma NextSlot(i: nat, phase: nat)
    requires i % 2 == phase
    ensures forall j: nat :: Passed(j, i + 2, phase) <==> Passed(j, i, phase) || j == i
  {
    assert (i + 1) % 2 != phase;
    forall j: nat ensures Passed(j, i + 2, phase) <==> Passed(j, i, phase) || j == i {
      if j == i + 1 { assert j % 2 != phase; }
    }
  }

  lemma NobodyYet(sessions: seq<PlayerSession?>, before: seq<map<u32, PendingPacket>>, phase: nat, nowMs: u32,
      starved: nat -> set<u32>)
    requires phase < 2 && before == Pendings(sessions)
    ensures Underway(sessions, before, phase, phase, nowMs, starved, {})
  {
    assert forall j: nat :: !Passed(j, phase, phase);
  }

  ghost predicate RoundOver(sessions: seq<PlayerSession?>, before: seq<map<u32, PendingPacket>>, phase: nat, nowMs: u32,
      starved: nat -> set<u32>, served: set<nat>)
    reads sessions
  {
    && |before| == |sessions|
    && (forall j: nat | j < |sessions| && sessions[j] != null ::
      Round(sessions[j], before[j], j % 2 == phase, nowMs, starved(j)))
    && forall j: nat :: j in served <==>
      j < |sessions| && sessions[j] != null && Sends(sessions[j], before[j], j % 2 == phase, nowMs, starved(j))
  }

  lemma RoundDone(sessions: seq<PlayerSession?>, before: seq<map<u32, PendingPacket>>, i: nat, phase: nat, nowMs: u32,
      starved: nat -> set<u32>, served: set<nat>)
    requires |sessions| <= i && Underway(sessions, before, i, phase, nowMs, starved, served)
    ensures RoundOver(sessions, before, phase, nowMs, starved, served)
  {
    assert forall j: nat | j < |sessions| :: Passed(j, i, phase) <==> j % 2 == phase;
  }

  ghost predicate Resends(i: nat, phase: nat, nowMs: u32, sessions: seq<PlayerSession?>, starved: nat -> set<u32>)
    requires i < |sessions| && sessions[i] != null
    reads sessions[i]
  {
    Sends(sessions[i], sessions[i].pendingReliable, i % 2 == phase, nowMs, starved(i))
  }

  /** The session objects in their slots, each in one. */
  predicate SessionTable(sessions: seq<PlayerSession?>) {
    forall i, j | 0 <= i < j < |sessions| && sessions[i] != null :: sessions[i] != sessions[j]
  }

  /** The rooms of the list gone from d, and reported after what was told before. */
  ghost predicate Destroyed(d: Dedi, list: seq<int>, d': Dedi, told: seq<nat>, notices: seq<nat>) {
    RoomsGone(d, list, d') && d'.rooms == d.rooms - Items(list) && notices == told + Counts(d.rooms, list)
  }

  lemma GoneOneMore(d: Dedi, list: seq<int>, i: nat, mid: Dedi, d': Dedi, told: seq<nat>, before: seq<nat>,
      notices: seq<nat>)
    requires i < |list| && Destroyed(d, list[..i], mid, told, before) && MaybeGone(mid, list[i], d')
    requires notices == before + if list[i] in mid.rooms then [|mid.rooms[list[i]]|] else []
    ensures Destroyed(d, list[..i + 1], d', told, notices)
  {
    var front := list[..i + 1];
    assert Front(front) == list[..i] && front[|front| - 1] == list[i];
    assert Items(front) == Items(list[..i]) + {list[i]};
    CountsLast(d.rooms, front);
    GoneRooms(d, list[..i], list[i], mid, d');
  }

  lemma GoneRooms(d: Dedi, init: seq<int>, room: int, mid: Dedi, d': Dedi)
    requires mid.rooms == d.rooms - Items(init) && MaybeGone(mid, room, d')
    ensures d'.rooms == d.rooms - (Items(init) + {room})
  {}

  lemma CountsLast(rooms: map<int, set<int>>, list: seq<int>)
    requires list != []
    ensures var room := list[|list| - 1];
      Counts(rooms, list) == Counts(rooms, Front(list)) + if room in rooms && room !in Items(Front(list))
          then [|rooms[room]|] else []
  {}

  lemma NewItem(init: seq<int>, room: int)
    ensures Items(init + [room]) == Items(init) + {room}
  {
    assert forall x <- init :: x in init + [room];
  }

  lemma FrontAnd(list: seq<int>)
    requires list != []
    ensures list == Front(list) + [list[|list| - 1]]
  {}

  lemma OneMoreRoom(listed: set<int>, room: int, known: set<int>)
    ensures |(listed + {room}) * known| == |listed * known| + if room in known && room !in listed then 1 else 0
  {
    if room in known && room !in listed {
      assert (listed + {room}) * known == listed * known + {room};
    } else {
      assert (listed + {room}) * known == listed * known;
    }
  }

  /** A destruction is reported once for each different room that exists. */
  lemma {:induction false} CountsOnce(rooms: map<int, set<int>>, list: seq<int>)
    ensures |Counts(rooms, list)| == |Items(list) * rooms.Keys|
  {
    if list != [] {
      FrontAnd(list);
      CountsOnce(rooms, Front(list));
      NewItem(Front(list), list[|list| - 1]);
      OneMoreRoom(Items(Front(list)), list[|list| - 1], rooms.Keys);
    }
  }

  ghost predicate IsCount(rooms: map<int, set<int>>, list: seq<int>, n: nat) {
    exists room :: room in list && room in rooms && n == |rooms[room]|
  }

  /** Each report is the number of sessions of a room that was destroyed. */
  lemma {:induction false} CountsAre(rooms: map<int, set<int>>, list: seq<int>, n: nat)
    requires n < |Counts(rooms, list)|
    ensures IsCount(rooms, list, Counts(rooms, list)[n])
  {
    var init, room := Front(list), list[|list| - 1];
    FrontAnd(list);
    if n < |Counts(rooms, init)| {
      CountsAre(rooms, init, n);
      var r :| r in init && r in rooms && Counts(rooms, init)[n] == |rooms[r]|;
      assert r in list;
    } else {
      assert room in list;
    }
  }

  /** Of the rooms reserved, exactly those that exist go, each once even if reserved twice; their slots are
      emptied, and their ids join the queue behind those already there. */
  lemma RoomsGoneIs(d: Dedi, list: seq<int>, d': Dedi)
    requires IdsOk(d) && RoomsGone(d, list, d')
    ensures IdsOk(d') && d'.lastRoom == d.lastRoom && d'.rooms == d.rooms - Items(list) && |d'.players| == |d.players|
    ensures forall id | 0 <= id < |d.players| ::
      d'.players[id] == if id in IdsIn(d.rooms, list) then NONE else d.players[id]
    ensures |d.free| <= |d'.free| && d'.free[..|d.free|] == d.free && Items(d'.free[|d.free|..]) == IdsIn(d.rooms, list)
  {
    GoneInTurn(d, list, d');
  }

  ghost predicate Emptied(d: Dedi, rooms: set<int>, ids: set<int>, d': Dedi) {
    && IdsOk(d') && d'.lastRoom == d.lastRoom && d'.rooms == d.rooms - rooms && |d'.players| == |d.players|
    && (forall id | 0 <= id < |d.players| :: d'.players[id] == if id in ids then NONE else d.players[id])
    && |d.free| <= |d'.free| && d'.free[..|d.free|] == d.free && Items(d'.free[|d.free|..]) == ids
  }

  lemma {:induction false} GoneInTurn(d: Dedi, list: seq<int>, d': Dedi)
    requires IdsOk(d) && RoomsGone(d, list, d')
    ensures Emptied(d, Items(list), IdsIn(d.rooms, list), d')
  {
    if list != [] {
      var init, room := Front(list), list[|list| - 1];
      var mid :| RoomsGone(d, init, mid) && MaybeGone(mid, room, d');
      GoneInTurn(d, init, mid);
      assert Items(list) == Items(init) + {room};
      if room in mid.rooms {
        RoomGoneToo(d, Items(init), room, IdsIn(d.rooms, init), mid, d');
      } else if room in d.rooms {
        IdsInHas(d.rooms, init, room);
        assert IdsIn(d.rooms, list) == IdsIn(d.rooms, init);
      }
    }
  }

  lemma RoomGoneToo(d: Dedi, rooms: set<int>, room: int, ids: set<int>, mid: Dedi, d': Dedi)
    requires room in mid.rooms && Emptied(d, rooms, ids, mid) && MaybeGone(mid, room, d')
    ensures Emptied(d, rooms + {room}, ids + d.rooms[room], d')
  {
    var order :| RoomGone(mid, d', room, order);
    DestroyRoomKeeps(mid, d', room, order);
    FreeExtends(d.free, mid.free, order, d'.free);
  }

  lemma FreeExtends(free: seq<int>, mid: seq<int>, order: seq<int>, free': seq<int>)
    requires |free| <= |mid| && mid[..|free|] == free && free' == mid + order
    ensures |free| <= |free'| && free'[..|free|] == free
      && Items(free'[|free|..]) == Items(mid[|free|..]) + Items(order)
  {
    assert free'[|free|..] == mid[|free|..] + order;
  }

  lemma OneMore(order: seq<int>, id: int)
    requires Distinct(order) && id !in Items(order)
    ensures Distinct(order + [id]) && Items(order + [id]) == Items(order) + {id}
  {
    DistinctConcat(order, [id]);
  }

  lemma NumberOnly(d: Dedi, d': Dedi, n: nat)
    requires IdsOk(d) && d' == d.(lastRoom := d.lastRoom + 1)
    ensures IdsOk(d') && (forall k: nat :: GrantedId(d', k) == GrantedId(d, k))
    ensures (set k | 0 <= k < n :: GrantedId(d', k)) == (set k | 0 <= k < n :: GrantedId(d, k))
  {
    assert forall id :: Live(d, id) <==> Live(d', id);
  }

  /** The first k players of a group have their ids. */
  ghost predicate GrantedSoFar(d: Dedi, players: seq<int>, free: seq<int>, ids: set<int>, uids: seq<int>, k: nat)
    requires k <= |uids|
  {
    && ids == (set j | 0 <= j < k :: GrantedId(d, j))
    && free == (if k <= |d.free| then d.free[k..] else [])
    && |players| == |d.players| + (if k <= |d.free| then 0 else k - |d.free|)
    && (forall j | 0 <= j < k :: 0 <= GrantedId(d, j) < |players| && players[GrantedId(d, j)] == uids[j])
    && (forall id | 0 <= id < |d.players| && id !in ids :: players[id] == d.players[id])
  }

  /** GetFreeSessionId, on the two tables. */
  ghost predicate TookId(players: seq<int>, free: seq<int>, players': seq<int>, free': seq<int>, id: int) {
    && id == (if free != [] then free[0] else |players|)
    && if free != [] then free' == free[1..] && players' == players else free' == [] && players' == players + [NONE]
  }

  lemma GrantedMore(d: Dedi, players: seq<int>, free: seq<int>, ids: set<int>, uids: seq<int>, k: nat,
      players': seq<int>, free': seq<int>, id: int)
    requires IdsOk(d) && k < |uids| && GrantedSoFar(d, players, free, ids, uids, k)
      && TookId(players, free, players', free', id)
    ensures 0 <= id < |players'| && GrantedSoFar(d, players'[id := uids[k]], free', ids + {id}, uids, k + 1)
  {
    GrantNext(d, k);
    TookIsGranted(d, players, free, players', free', id, k);
  }

  lemma TookIsGranted(d: Dedi, players: seq<int>, free: seq<int>, players': seq<int>, free': seq<int>, id: int, k: nat)
    requires IdsOk(d) && TookId(players, free, players', free', id)
    requires free == (if k <= |d.free| then d.free[k..] else [])
      && |players| == |d.players| + (if k <= |d.free| then 0 else k - |d.free|)
    ensures id == GrantedId(d, k) && 0 <= id < |players'|
    ensures free' == (if k + 1 <= |d.free| then d.free[k + 1..] else [])
    ensures |players'| == |d.players| + (if k + 1 <= |d.free| then 0 else k + 1 - |d.free|)
    ensures players' == if k < |d.free| then players else players + [NONE]
  {
    GrantNext(d, k);
  }

  lemma GrantNext(d: Dedi, k: nat)
    requires IdsOk(d)
    ensures forall j | 0 <= j < k :: GrantedId(d, j) != GrantedId(d, k)
    ensures GrantedId(d, k) < |d.players| <==> k < |d.free|
    ensures 0 <= GrantedId(d, k)
    ensures (set j | 0 <= j < k + 1 :: GrantedId(d, j)) == (set j | 0 <= j < k :: GrantedId(d, j)) + {GrantedId(d, k)}
  {
    GrantedIsFree(d, k);
    forall j | 0 <= j < k ensures GrantedId(d, j) != GrantedId(d, k) { GrantedApart(d, j, k); }
  }
}
