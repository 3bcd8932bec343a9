/** Who counts the players of one Dedicated process: Main's counter, the groups it has queued or sent, the
    rooms on the other side with their session ids, and the notices on their way back. */
module CapacityModel {

  const MAX_PLAYER_PER_PROCESS := 50
  const NONE := -1

  /** Main's word for a group: whether the map is one the Dedicated knows, and the players whose ticket
      was still in Redis when the packet was built. */
  datatype Packet = Packet(knownMap: bool, uids: seq<int>)

  datatype Phase = Initializing | Ready | Terminated

  /** Main's side of one Dedicated: wire is what has been sent and not yet handled there. */
  datatype Side = Side(taken: int, phase: Phase, queued: seq<Packet>, wire: seq<Packet>)

  function Affordable(m: Side): int { MAX_PLAYER_PER_PROCESS - m.taken }

  predicate Takes(m: Side, size: nat) { Affordable(m) >= size && m.phase != Terminated }

  function Flushed(m: Side): Side { m.(wire := m.wire + m.queued, queued := []) }

  /** size tickets asked for room; pkt names those among them that still exist. */
  function AfterAllocate(m: Side, size: nat, pkt: Packet): Side {
    if !Takes(m, size) then m
    else
      var m' := m.(taken := m.taken + size, queued := m.queued + [pkt]);
      if m.phase == Ready then Flushed(m') else m'
  }

  /** The counter is cut off at zero. */
  function AfterRelease(m: Side, count: nat): Side {
    m.(taken := if m.taken - count < 0 then 0 else m.taken - count)
  }

  /** A group is taken exactly if it fits into the fifty and the process still lives.  A ready process is then sent
      everything queued and the group, in that order, and one still starting gets the group queued; a refusal changes
      nothing. */
  lemma AllocateEffect(m: Side, size: nat, pkt: Packet)
    ensures var m' := AfterAllocate(m, size, pkt); var taken := 50 - m.taken >= size && m.phase != Terminated;
      && (Takes(m, size) <==> taken)
      && (!taken ==> m' == m)
      && (taken ==> m'.taken == m.taken + size && m'.phase == m.phase)
      && (taken && m.phase == Ready ==> m'.queued == [] && m'.wire == m.wire + m.queued + [pkt])
      && (taken && m.phase == Initializing ==> m'.queued == m.queued + [pkt] && m'.wire == m.wire)
  {
    assert m.wire + (m.queued + [pkt]) == m.wire + m.queued + [pkt];
  }

  // ---- The Dedicated's side ----

  /** players maps a session id to its player; id 50 is a slot nobody is ever given. */
  datatype Dedi = Dedi(players: seq<int>, free: seq<int>, rooms: map<int, set<int>>, lastRoom: nat)

  function Items(s: seq<int>): set<int> { set x | x in s }

  ghost predicate Distinct(s: seq<int>) { forall i, j | 0 <= i < j < |s| :: s[i] != s[j] }

  ghost predicate Live(d: Dedi, id: int) { exists r <- d.rooms :: id in d.rooms[r] }

  ghost function LiveIds(d: Dedi): set<int> { set i | 0 <= i < |d.players| && Live(d, i) }

  /** Every id but 50 is free once or in one room, and the table names a player exactly at the live ids. */
  ghost predicate IdsOk(d: Dedi) {
    && |d.players| >= MAX_PLAYER_PER_PROCESS + 1 && Distinct(d.free)
    && (forall r <- d.rooms :: r <= d.lastRoom && forall id <- d.rooms[r] :: 0 <= id < |d.players|)
    && (forall r, s | r in d.rooms && s in d.rooms && r != s :: d.rooms[r] !! d.rooms[s])
    && (forall id <- d.free :: 0 <= id < |d.players| && id != MAX_PLAYER_PER_PROCESS && !Live(d, id))
    && (forall id | 0 <= id < |d.players| && id != MAX_PLAYER_PER_PROCESS :: id in d.free || Live(d, id))
    && !Live(d, MAX_PLAYER_PER_PROCESS)
    && (forall id | 0 <= id < |d.players| :: d.players[id] != NONE ==> Live(d, id))
  }

  /** The id the k-th player of a group gets: from the queue while it lasts, then a new slot. */
  function GrantedId(d: Dedi, k: nat): int { if k < |d.free| then d.free[k] else |d.players| + k - |d.free| }

  /** The room for a group: its members get the next ids. */
  ghost predicate RoomMade(d: Dedi, d': Dedi, uids: seq<int>) {
    && d'.lastRoom == d.lastRoom + 1
    && d'.rooms == d.rooms[d'.lastRoom := set k | 0 <= k < |uids| :: GrantedId(d, k)]
    && d'.free == (if |uids| <= |d.free| then d.free[|uids|..] else [])
    && |d'.players| == |d.players| + (if |uids| <= |d.free| then 0 else |uids| - |d.free|)
    && (forall k | 0 <= k < |uids| :: 0 <= GrantedId(d, k) < |d'.players| && d'.players[GrantedId(d, k)] == uids[k])
    && (forall id | 0 <= id < |d.players| && id !in d'.rooms[d'.lastRoom] :: d'.players[id] == d.players[id])
  }

  /** Destroying a room returns its ids in some order. */
  ghost predicate RoomGone(d: Dedi, d': Dedi, room: int, order: seq<int>)
    requires room in d.rooms
  {
    && d'.lastRoom == d.lastRoom && d'.rooms == d.rooms - {room} && |d'.players| == |d.players|
    && Distinct(order) && Items(order) == d.rooms[room] && d'.free == d.free + order
    && (forall id | 0 <= id < |d.players| :: d'.players[id] == if id in d.rooms[room] then NONE else d.players[id])
  }

  // ---- No id is ever shared ----

  lemma GrantedIsFree(d: Dedi, k: nat)
    requires IdsOk(d)
    ensures 0 <= GrantedId(d, k) && GrantedId(d, k) != MAX_PLAYER_PER_PROCESS
    ensures GrantedId(d, k) < |d.players| <==> k < |d.free|
    ensures k < |d.free| ==> !Live(d, GrantedId(d, k))
  {
    if k < |d.free| { assert d.free[k] in d.free; }
  }

  lemma GrantedApart(d: Dedi, j: nat, k: nat)
    requires IdsOk(d) && j != k
    ensures GrantedId(d, j) != GrantedId(d, k)
  {
    GrantedIsFree(d, j);
    GrantedIsFree(d, k);
  }

  lemma LiveAfterMade(d: Dedi, d': Dedi, uids: seq<int>, id: int)
    requires IdsOk(d) && RoomMade(d, d', uids)
    ensures Live(d', id) <==> Live(d, id) || id in d'.rooms[d'.lastRoom]
  {
    if Live(d, id) {
      var r :| r in d.rooms && id in d.rooms[r];
      assert r in d'.rooms && d'.rooms[r] == d.rooms[r];
    }
    if Live(d', id) {
      var r :| r in d'.rooms && id in d'.rooms[r];
      assert r != d'.lastRoom ==> r in d.rooms;
    }
  }

  lemma MadeFree(d: Dedi, d': Dedi, uids: seq<int>, id: int)
    requires IdsOk(d) && RoomMade(d, d', uids)
    ensures id in d'.free ==> id in d.free && id !in d'.rooms[d'.lastRoom]
    ensures 0 <= id < |d'.players| && id != MAX_PLAYER_PER_PROCESS ==> id in d'.free || Live(d', id)
  {
    LiveAfterMade(d, d', uids, id);
    if id in d'.free {
      var i :| 0 <= i < |d'.free| && d'.free[i] == id;
      assert d.free[|uids| + i] == id;
    }
    if id in d.free {
      var k :| 0 <= k < |d.free| && d.free[k] == id;
      assert GrantedId(d, k) == id;
      if k >= |uids| { assert d'.free[k - |uids|] == id; }
    }
    if |d.players| <= id < |d'.players| { assert GrantedId(d, id - |d.players| + |d.free|) == id; }
  }

  lemma LiveBounds(d: Dedi, id: int)
    requires IdsOk(d) && Live(d, id)
    ensures 0 <= id < |d.players| && id != MAX_PLAYER_PER_PROCESS
  {}

  lemma GrantedSet(d: Dedi, d': Dedi, uids: seq<int>, id: int)
    requires IdsOk(d) && RoomMade(d, d', uids) && id in d'.rooms[d'.lastRoom]
    ensures 0 <= id < |d'.players| && id != MAX_PLAYER_PER_PROCESS && !Live(d, id) && id !in d'.free
  {
    var k :| 0 <= k < |uids| && GrantedId(d, k) == id;
    GrantedIsFree(d, k);
    if Live(d, id) { LiveBounds(d, id); }
    MadeFree(d, d', uids, id);
  }

  /** A new room's ids belong to no other room and are no longer free, however many players it has. */
  lemma MakeRoomKeeps(d: Dedi, d': Dedi, uids: seq<int>)
    requires IdsOk(d) && RoomMade(d, d', uids)
    ensures IdsOk(d')
  {
    forall id ensures Live(d', id) <==> Live(d, id) || id in d'.rooms[d'.lastRoom] { LiveAfterMade(d, d', uids, id); }
    forall id | id in d'.rooms[d'.lastRoom]
      ensures 0 <= id < |d'.players| && id != MAX_PLAYER_PER_PROCESS && !Live(d, id)
    {
      GrantedSet(d, d', uids, id);
    }
    forall r | r in d.rooms ensures d'.rooms[r] == d.rooms[r] && d.rooms[r] !! d'.rooms[d'.lastRoom] {
      forall id | id in d.rooms[r] ensures Live(d, id) {}
    }
    forall id | id in d'.free ensures 0 <= id < |d'.players| && id != MAX_PLAYER_PER_PROCESS && !Live(d', id) {
      MadeFree(d, d', uids, id);
      if id in d'.rooms[d'.lastRoom] { GrantedSet(d, d', uids, id); }
    }
    forall id | 0 <= id < |d'.players| && id != MAX_PLAYER_PER_PROCESS ensures id in d'.free || Live(d', id) {
      MadeFree(d, d', uids, id);
    }
  }

  /** The k-th player of a group sits at the k-th free id, and where the queue ends at a new slot; the group leaves the
      front of the queue and nobody else moves. */
  lemma RoomSeats(d: Dedi, d': Dedi, uids: seq<int>, k: nat)
    requires IdsOk(d) && RoomMade(d, d', uids) && k < |uids|
    ensures var id := if k < |d.free| then d.free[k] else |d.players| + k - |d.free|;
      && d.lastRoom + 1 in d'.rooms && id in d'.rooms[d.lastRoom + 1]
      && 0 <= id < |d'.players| && d'.players[id] == uids[k]
    ensures |d'.rooms[d.lastRoom + 1]| == |uids|
    ensures |uids| <= |d.free| ==> d.free == d.free[..|uids|] + d'.free && |d'.players| == |d.players|
    ensures forall id | 0 <= id < |d.players| && Live(d, id) :: d'.players[id] == d.players[id]
  {
    GrantedCount(d, |uids|);
    assert GrantedId(d, k) in d'.rooms[d'.lastRoom];
    forall id | id in d'.rooms[d'.lastRoom] ensures !Live(d, id) { GrantedSet(d, d', uids, id); }
  }

  lemma LiveAfterGone(d: Dedi, d': Dedi, room: int, order: seq<int>, id: int)
    requires IdsOk(d) && room in d.rooms && RoomGone(d, d', room, order)
    ensures Live(d', id) <==> Live(d, id) && id !in d.rooms[room]
  {
    if Live(d, id) && id !in d.rooms[room] {
      var r :| r in d.rooms && id in d.rooms[r];
      assert r in d'.rooms && d'.rooms[r] == d.rooms[r];
    }
    if Live(d', id) {
      var r :| r in d'.rooms && id in d'.rooms[r];
      assert r in d.rooms && d.rooms[r] == d'.rooms[r];
    }
  }

  lemma DistinctConcat(p: seq<int>, q: seq<int>)
    requires Distinct(p) && Distinct(q) && Items(p) !! Items(q)
    ensures Distinct(p + q) && Items(p + q) == Items(p) + Items(q)
  {
    forall i, j | 0 <= i < |p| && 0 <= j < |q| ensures p[i] != q[j] { assert p[i] in Items(p) && q[j] in Items(q); }
  }

  lemma DestroyRoomKeeps(d: Dedi, d': Dedi, room: int, order: seq<int>)
    requires IdsOk(d) && room in d.rooms && RoomGone(d, d', room, order)
    ensures IdsOk(d')
  {
    forall id ensures Live(d', id) <==> Live(d, id) && id !in d.rooms[room] { LiveAfterGone(d, d', room, order, id); }
    forall id | id in Items(order) ensures id !in Items(d.free) { assert Live(d, id); }
    DistinctConcat(d.free, order);
    forall id ensures id in d'.free <==> id in d.free || id in d.rooms[room] {
      assert id in d'.free <==> id in Items(d'.free);
      assert id in order <==> id in Items(order);
    }
  }

  // ---- Counting ----

  lemma {:induction false} ItemsCount(s: seq<int>)
    requires Distinct(s)
    ensures |Items(s)| == |s|
  {
    if s != [] {
      var r := s[..|s| - 1];
      ItemsCount(r);
      assert s[|s| - 1] !in Items(r);
      assert Items(s) == Items(r) + {s[|s| - 1]};
    }
  }

  lemma {:induction false} RangeCount(s: set<int>, n: nat)
    requires forall i :: i in s <==> 0 <= i < n
    ensures |s| == n
  {
    if n == 0 {
      if s != {} && forall x: int :: x !in s { assert false; }
    } else {
      RangeCount(s - {n - 1}, n - 1);
    }
  }

  lemma UnionCount(a: set<int>, b: set<int>)
    requires a !! b
    ensures |a + b| == |a| + |b|
  {}

  /** As long as no slot was added, the free ids are those the live sessions leave of the fifty. */
  lemma FreeIsWhatIsLeft(d: Dedi)
    requires IdsOk(d) && |d.players| == MAX_PLAYER_PER_PROCESS + 1
    ensures |d.free| + |LiveIds(d)| == MAX_PLAYER_PER_PROCESS
  {
    ItemsCount(d.free);
    forall id ensures id in Items(d.free) + LiveIds(d) <==> 0 <= id < MAX_PLAYER_PER_PROCESS {
      assert id in Items(d.free) <==> id in d.free;
      if Live(d, id) { LiveBounds(d, id); }
    }
    RangeCount(Items(d.free) + LiveIds(d), MAX_PLAYER_PER_PROCESS);
    UnionCount(Items(d.free), LiveIds(d));
  }

  lemma {:induction false} GrantedCount(d: Dedi, n: nat)
    requires IdsOk(d)
    ensures |set k | 0 <= k < n :: GrantedId(d, k)| == n
  {
    if n > 0 {
      var s := set k | 0 <= k < n - 1 :: GrantedId(d, k);
      GrantedCount(d, n - 1);
      forall k | 0 <= k < n - 1 ensures GrantedId(d, k) != GrantedId(d, n - 1) { GrantedApart(d, k, n - 1); }
      assert (set k | 0 <= k < n :: GrantedId(d, k)) == s + {GrantedId(d, n - 1)};
    }
  }

  lemma MadeCount(d: Dedi, d': Dedi, uids: seq<int>)
    requires IdsOk(d) && RoomMade(d, d', uids)
    ensures |LiveIds(d')| == |LiveIds(d)| + |uids|
  {
    GrantedCount(d, |uids|);
    var ids := d'.rooms[d'.lastRoom];
    forall id ensures id in LiveIds(d') <==> id in LiveIds(d) || id in ids {
      LiveAfterMade(d, d', uids, id);
      if id in ids { GrantedSet(d, d', uids, id); }
    }
    forall id | id in ids ensures id !in LiveIds(d) { GrantedSet(d, d', uids, id); }
    assert LiveIds(d') == LiveIds(d) + ids;
    UnionCount(LiveIds(d), ids);
  }

  lemma GoneCount(d: Dedi, d': Dedi, room: int, order: seq<int>)
    requires IdsOk(d) && room in d.rooms && RoomGone(d, d', room, order)
    ensures |LiveIds(d')| + |d.rooms[room]| == |LiveIds(d)|
  {
    var ids := d.rooms[room];
    forall id ensures id in LiveIds(d) <==> id in LiveIds(d') || id in ids {
      LiveAfterGone(d, d', room, order, id);
      if id in ids { assert Live(d, id); }
    }
    forall id | id in ids ensures id !in LiveIds(d') { LiveAfterGone(d, d', room, order, id); }
    assert LiveIds(d) == LiveIds(d') + ids;
    UnionCount(LiveIds(d'), ids);
  }
}
