/** What a second spawn does to a room that has just opened.  The source replaces the session's player
    object without giving back what the old one held, so the old object stays on as nobody's. */
module SecondSpawn {
  import opened UInt32
  import opened SessionModel
  import opened HostileNpc
  import opened RoomModel
  import opened RoomRuns
  import O = Occupancy

  /** A session that has said hello and has a body numbered b. */
  ghost predicate Arrived(r: Room, i: int, b: int) {
    && KeysAgree(r) && i in r.sessions && IsActiveState(r.sessions[i])
    && r.hold.objects[i] == b && b in r.players && 0 <= b < r.nextObjectId
  }

  lemma ConnectGives(r: Room, i: int)
    requires KeysAgree(r) && i in r.sessions && r.sessions[i].state == INIT
    ensures var q := Next(r, ChannelOpen(i));
      && q == r.(sessions := q.sessions) && q.sessions == r.sessions[i := q.sessions[i]] && IsActiveState(q.sessions[i])
  {}

  lemma SpawnGives(r: Room, i: int)
    requires KeysAgree(r) && i in r.sessions && IsActiveState(r.sessions[i])
    ensures Next(r, SpawnMe(i)) == Spawn(r, i) && Arrived(Spawn(r, i), i, r.nextObjectId)
  {}

  /** Connecting and spawning. */
  function Arriving(i: int): seq<Event> { [ChannelOpen(i), SpawnMe(i)] }

  lemma ArriveGives(r: Room, i: int)
    requires KeysAgree(r) && i in r.sessions && r.sessions[i].state == INIT
    ensures var q := After(r, Arriving(i));
      && Arrived(q, i, r.nextObjectId) && q.nextObjectId == r.nextObjectId + 1
      && q.sessions == r.sessions[i := q.sessions[i]]
      && q.hold == r.hold.(objects := r.hold.objects[i := r.nextObjectId])
      && q.npcs == r.npcs
  {
    AfterOne(r, ChannelOpen(i));
    LastStep(r, [ChannelOpen(i)], SpawnMe(i));
    ConnectGives(r, i);
    SpawnGives(Next(r, ChannelOpen(i)), i);
    assert [ChannelOpen(i)] + [SpawnMe(i)] == [ChannelOpen(i), SpawnMe(i)];
  }

  lemma OpenGives(r: Room, i: int, c: int, near: set<(int, int)>)
    requires KeysAgree(r) && CanOpen(r, i, c, near)
    ensures Next(r, Open(i, c, near)) == r.(hold := O.Take(r.hold, i, c))
  {}

  lemma BidGives(r: Room, i: int, n: int, aggro: int)
    requires KeysAgree(r) && MayAsk(r, i, n) && AcceptsAuthorityRequest(r.npcs[n], r.hold.objects[i], aggro)
    ensures var q := Next(r, Authority(i, n, aggro));
      && q == r.(npcs := q.npcs, told := q.told)
      && n in q.npcs && q.npcs[n] == WithAggro(r.npcs[n], aggro, r.hold.objects[i])
  {}

  /** The old body, numbered r.nextObjectId, takes the container; the new one is numbered after it. */
  function Looting(i: int, c: int, b: int): seq<Event> {
    Arriving(i) + Grabbing(i, c, b)
  }

  function Grabbing(i: int, c: int, b: int): seq<Event> { [Open(i, c, {(b, c)}), SpawnMe(i)] }

  lemma TakeAndSpawn(q: Room, i: int, c: int, b: int)
    requires Arrived(q, i, b) && c in q.hold.holders && q.hold.holders[c] == NOBODY
    ensures After(q, Grabbing(i, c, b)) == Spawn(q.(hold := O.Take(q.hold, i, c)), i)
  {
    OpenGives(q, i, c, {(b, c)});
    AfterOne(q, Open(i, c, {(b, c)}));
    LastStep(q, [Open(i, c, {(b, c)})], SpawnMe(i));
    SpawnGives(q.(hold := O.Take(q.hold, i, c)), i);
    assert [Open(i, c, {(b, c)})] + [SpawnMe(i)] == [Open(i, c, {(b, c)}), SpawnMe(i)];
  }

  /** The facts about an opening room that matter here. */
  ghost predicate Untouched(r: Room, i: int) {
    KeysAgree(r) && i in r.sessions && r.sessions[i].state == INIT && r.hold.open[i] == NO_CONTAINER
  }

  lemma OpeningUntouched(r: Room, i: int)
    requires Opening(r) && i in r.sessions
    ensures Untouched(r, i)
  {}

  lemma OpeningFree(r: Room, c: int)
    requires Opening(r) && c in r.hold.holders
    ensures r.hold.holders[c] == NOBODY
  {}

  /** The room after arriving, taking the container and spawning again. */
  function Looted(p: Room, i: int, c: int): Room
    requires KeysAgree(p) && i in p.sessions && c in p.hold.holders
  {
    Spawn(p.(hold := O.Take(p.hold, i, c)), i)
  }

  lemma LootingIs(r: Room, p: Room, i: int, c: int, b: int)
    requires KeysAgree(r) && p == After(r, Arriving(i)) && Arrived(p, i, b) && c in p.hold.holders
      && p.hold.holders[c] == NOBODY
    ensures After(r, Looting(i, c, b)) == Looted(p, i, c)
  {
    TakeAndSpawn(p, i, c, b);
    RunInTwo(r, Arriving(i), Grabbing(i, c, b));
  }

  lemma LootedGives(p: Room, i: int, c: int, b: int)
    requires Arrived(p, i, b) && c in p.hold.holders && p.hold.holders[c] == NOBODY && p.hold.open[i] == NO_CONTAINER
    ensures var q := Looted(p, i, c);
      && KeysAgree(q) && q.nextObjectId == p.nextObjectId + 1 && q.sessions == p.sessions
      && q.hold.objects == p.hold.objects[i := p.nextObjectId]
      && q.hold.open == p.hold.open[i := c] && q.hold.holders == p.hold.holders[c := b]
  {
    FirstTake(p.hold, i, c);
  }

  /** What the second spawn leaves behind: the container held by the old body, which is nobody's. */
  lemma LootingGives(r: Room, i: int, c: int)
    requires Untouched(r, i) && c in r.hold.holders && r.hold.holders[c] == NOBODY
    ensures var q := After(r, Looting(i, c, r.nextObjectId)); var s := q.sessions;
      && KeysAgree(q) && q.nextObjectId == r.nextObjectId + 2 && i in s && s == r.sessions[i := s[i]]
      && q.hold.objects[i] == r.nextObjectId + 1
      && q.hold.open == r.hold.open[i := c] && q.hold.holders == r.hold.holders[c := r.nextObjectId]
  {
    ArriveGives(r, i);
    var p := After(r, Arriving(i));
    LootingIs(r, p, i, c, r.nextObjectId);
    LootedGives(p, i, c, r.nextObjectId);
  }

  lemma FirstTake(s: O.State, i: int, c: int)
    requires i in s.open && i in s.objects && c in s.holders && s.holders[c] == NOBODY && s.open[i] == NO_CONTAINER
    ensures O.Take(s, i, c) == s.(open := s.open[i := c], holders := s.holders[c := s.objects[i]])
  {
    forall j | j in s.open ensures O.Evict(s, s.holders[c]).open[j] == s.open[j] {}
  }

  /** After a second spawn the session has a container open that its object does not hold. */
  lemma ContainerOrphaned(r: Room, i: int, c: int)
    requires Opening(r) && i in r.sessions && c in r.hold.holders
    ensures var q := After(r, Looting(i, c, r.nextObjectId));
      && i in q.sessions && c in q.hold.holders
      && q.hold.open[i] == c && q.hold.holders[c] != q.hold.objects[i]
  {
    OpeningUntouched(r, i);
    OpeningFree(r, c);
    LootingGives(r, i, c);
  }

  /** Taking a container over from a body that is no session's evicts nobody. */
  lemma TakeFromNobody(s: O.State, j: int, c: int, i: int)
    requires j in s.open && j in s.objects && c in s.holders && i in s.open && i in s.objects && i != j
    requires s.holders[c] != s.objects[i] && s.holders[c] != s.objects[j] && s.open[i] == c
    ensures var t := O.Take(s, j, c); i in t.open && j in t.open && t.open[i] == c && t.open[j] == c
  {}

  /** Session i has c open though its old body b holds it; session j has yet to connect. */
  ghost predicate LeftBehind(p: Room, i: int, j: int, c: int, b: int) {
    && KeysAgree(p) && i in p.sessions && j in p.sessions && i != j && p.sessions[j].state == INIT
    && p.nextObjectId == b + 2 && p.hold.objects[i] == b + 1 && p.hold.open[i] == c
    && c in p.hold.holders && p.hold.holders[c] == b
  }

  ghost predicate BothHaveOpen(h: O.State, i: int, j: int, c: int) {
    i in h.open && j in h.open && h.open[i] == c && h.open[j] == c
  }

  lemma SecondLooter(p: Room, i: int, j: int, c: int, b: int)
    requires LeftBehind(p, i, j, c, b)
    ensures BothHaveOpen(After(After(p, Arriving(j)), [Open(j, c, {(b + 2, c)})]).hold, i, j, c)
  {
    ArriveGives(p, j);
    var q := After(p, Arriving(j));
    OpenGives(q, j, c, {(b + 2, c)});
    AfterOne(q, Open(j, c, {(b + 2, c)}));
    TakeFromNobody(q.hold, j, c, i);
  }

  function Coming(j: int, c: int, b: int): seq<Event> { Arriving(j) + [Open(j, c, {(b + 2, c)})] }

  lemma SecondLooterComes(r: Room, es: seq<Event>, i: int, j: int, c: int, b: int)
    requires KeysAgree(r) && LeftBehind(After(r, es), i, j, c, b)
    ensures BothHaveOpen(After(r, es + Coming(j, c, b)).hold, i, j, c)
  {
    SecondLooter(After(r, es), i, j, c, b);
    RunInTwo(After(r, es), Arriving(j), [Open(j, c, {(b + 2, c)})]);
    RunInTwo(r, es, Coming(j, c, b));
  }

  lemma FirstLooterLeaves(r: Room, i: int, j: int, c: int)
    requires Untouched(r, i) && Untouched(r, j) && i != j && c in r.hold.holders && r.hold.holders[c] == NOBODY
    ensures LeftBehind(After(r, Looting(i, c, r.nextObjectId)), i, j, c, r.nextObjectId)
  {
    LootingGives(r, i, c);
  }

  /** From any room that has just opened: one session opens a container and spawns again, and another, with the
      third body, comes up to the container the old body still holds.  A body nobody drives does not move, so the
      old one must have walked off before the second spawn: the last event has only the third body within reach.
      Both sessions end with the container open. */
  lemma ExclusionLost(r: Room, i: int, j: int, c: int)
    requires Opening(r) && i in r.sessions && j in r.sessions && i != j && c in r.hold.holders
    ensures BothHaveOpen(After(r, Looting(i, c, r.nextObjectId) + Coming(j, c, r.nextObjectId)).hold, i, j, c)
  {
    OpeningUntouched(r, i);
    OpeningUntouched(r, j);
    OpeningFree(r, c);
    FirstLooterLeaves(r, i, j, c);
    SecondLooterComes(r, Looting(i, c, r.nextObjectId), i, j, c, r.nextObjectId);
  }

  function Bidding(i: int, n: int, aggro: int): seq<Event> {
    Arriving(i) + Taking(i, n, aggro)
  }

  function Taking(i: int, n: int, aggro: int): seq<Event> { [Authority(i, n, aggro), SpawnMe(i)] }

  lemma BidAndSpawn(q: Room, i: int, n: int, aggro: int, b: int)
    requires Arrived(q, i, b) && n in q.npcs && AcceptsAuthorityRequest(q.npcs[n], b, aggro)
    ensures var p := After(q, Taking(i, n, aggro));
      && KeysAgree(p) && n in p.npcs && p.npcs[n] == WithAggro(q.npcs[n], aggro, b)
      && p.hold.objects == q.hold.objects[i := q.nextObjectId]
  {
    BidGives(q, i, n, aggro);
    AfterOne(q, Authority(i, n, aggro));
    LastStep(q, [Authority(i, n, aggro)], SpawnMe(i));
    SpawnGives(Next(q, Authority(i, n, aggro)), i);
    assert [Authority(i, n, aggro)] + [SpawnMe(i)] == [Authority(i, n, aggro), SpawnMe(i)];
  }

  lemma BidAfter(r: Room, es: seq<Event>, i: int, n: int, aggro: int, b: int)
    requires KeysAgree(r) && Arrived(After(r, es), i, b)
    requires n in After(r, es).npcs && AcceptsAuthorityRequest(After(r, es).npcs[n], b, aggro)
    ensures var p := After(r, es); var q := After(r, es + Taking(i, n, aggro));
      n in q.npcs && q.npcs[n] == WithAggro(p.npcs[n], aggro, b)
          && q.hold.objects == p.hold.objects[i := p.nextObjectId]
  {
    BidAndSpawn(After(r, es), i, n, aggro, b);
    RunInTwo(r, es, Taking(i, n, aggro));
  }

  lemma BiddingGives(r: Room, i: int, n: int)
    requires Untouched(r, i) && n in r.npcs && NpcOk(r.npcs[n]) && r.npcs[n].target == NO_TARGET
      && r.npcs[n].minAggro < r.npcs[n].maxAggro
    ensures var q := After(r, Bidding(i, n, r.npcs[n].maxAggro));
      && n in q.npcs && q.npcs[n] == WithAggro(r.npcs[n], r.npcs[n].maxAggro, r.nextObjectId)
      && q.hold.objects == r.hold.objects[i := r.nextObjectId][i := r.nextObjectId + 1]
  {
    ArriveGives(r, i);
    BidAfter(r, Arriving(i), i, n, r.npcs[n].maxAggro, r.nextObjectId);
  }

  lemma OpeningNpc(r: Room, n: int)
    requires Opening(r) && n in r.npcs
    ensures NpcOk(r.npcs[n]) && r.npcs[n].target == NO_TARGET
    ensures KeysAgree(r) && forall j <- r.hold.objects :: r.hold.objects[j] == NOBODY
  {}

  /** From any room that has just opened: a session bids for an NPC and spawns again, and the NPC's target
      is nobody's object. */
  lemma AuthorityOrphaned(r: Room, i: int, n: int)
    requires Opening(r) && i in r.sessions && n in r.npcs && r.npcs[n].minAggro < r.npcs[n].maxAggro
    ensures var q := After(r, Bidding(i, n, r.npcs[n].maxAggro));
      && n in q.npcs && q.npcs[n].target == r.nextObjectId
      && forall j <- q.hold.objects :: q.hold.objects[j] != q.npcs[n].target
  {
    OpeningUntouched(r, i);
    OpeningNpc(r, n);
    BiddingGives(r, i, n);
  }
}
