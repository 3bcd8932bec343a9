/** Where the players' things go: the room together with what its containers hold.  A pass puts the things of
    each dead player into a container of its own, numbered in the order in which the loop met the dead. */
module RoomLoot {
  import opened UInt32
  import opened SessionModel
  import opened RoomModel
  import opened RoomRuns

  type Items = multiset<int>

  datatype World = World(room: Room, loot: map<int, Items>)

  /** Order is the order in which the pass met the sessions; the others are the room's own events, an exchange
      between a player and the container the player has open, and rounds fired or spilled. */
  datatype Step =
    | Other(e: Event)
    | Exchange(id: int, mine: Items, theirs: Items)
    | Spend(id: int, used: Items)
    | Leave(now: int, clock: int, nowMs: u32, order: seq<int>)

  ghost predicate Distinct(order: seq<int>) { forall i, j | 0 <= i < j < |order| :: order[i] != order[j] }

  /** Each of the keys, once. */
  ghost predicate Lists(order: seq<int>, keys: set<int>) {
    Distinct(order) && forall i :: i in order <==> i in keys
  }

  // ---- The pass ----

  /** Of a room whose leavers are marked: a dead player with a body about to be detached. */
  predicate IsCorpse(m: Room, i: int) {
    && i in m.sessions && m.sessions[i].leaveState == PENDING && m.sessions[i].reason == DEAD
    && i in m.hold.objects && m.hold.objects[i] in m.players
  }

  /** A player cut off, whose things are destroyed. */
  predicate IsWiped(m: Room, i: int) {
    && i in m.sessions && m.sessions[i].leaveState == PENDING && m.sessions[i].reason == DISCONNECTED
    && i in m.hold.objects && m.hold.objects[i] in m.players
  }

  function Corpses(m: Room, order: seq<int>): seq<int> {
    if order == [] then []
    else Corpses(m, order[..|order| - 1]) + (if IsCorpse(m, order[|order| - 1]) then [order[|order| - 1]] else [])
  }

  function ItemsOf(sessions: map<int, Session>, i: int): Items
  {
    if i in sessions then sessions[i].items else multiset{}
  }

  /** One container after the other, from the first free object id. */
  function Buried(loot: map<int, Items>, sessions: map<int, Session>, corpses: seq<int>, first: nat): map<int, Items> {
    if corpses == [] then loot
    else
      var n := |corpses| - 1;
      Buried(loot, sessions, corpses[..n], first)[first + n := ItemsOf(sessions, corpses[n])]
  }

  function Boxes(r: Room, n: nat): Room { if n == 0 then r else SpawnLoot(Boxes(r, n - 1)) }

  function Passed(w: World, now: int, clock: int, nowMs: u32, order: seq<int>): World
    requires KeysAgree(w.room)
  {
    var m := MarkAll(w.room, now, clock, nowMs);
    Bury(ProcessLeaves(w.room, now, clock, nowMs), w.loot, m.sessions, Corpses(m, order))
  }

  /** The containers of the corpses, added to the room the pass leaves. */
  function Bury(q: Room, loot: map<int, Items>, sessions: map<int, Session>, corpses: seq<int>): World {
    World(Boxes(q, |corpses|), Buried(loot, sessions, corpses, q.nextObjectId))
  }

  // ---- The other steps ----

  predicate MovesItems(e: Event) { e.Pass? || e.UseItems? || e.SpawnContainer? }

  /** What changes hands stays between the two. */
  predicate CanExchange(w: World, id: int, mine: Items, theirs: Items)
    requires KeysAgree(w.room)
  {
    && id in w.room.sessions && IsActiveState(w.room.sessions[id])
    && w.room.hold.open[id] != NO_CONTAINER && w.room.hold.open[id] in w.loot
    && mine + theirs == w.room.sessions[id].items + w.loot[w.room.hold.open[id]]
  }

  predicate CanSpend(w: World, id: int, used: Items) {
    id in w.room.sessions && IsActiveState(w.room.sessions[id]) && used <= w.room.sessions[id].items
  }

  function Moved(w: World, s: Step): (w': World)
    requires KeysAgree(w.room)
    ensures KeysAgree(w'.room)
  {
    match s
    case Other(e) => if MovesItems(e) then w else w.(room := Next(w.room, e))
    case Exchange(id, mine, theirs) =>
      if CanExchange(w, id, mine, theirs)
      then World(Next(w.room, UseItems(id, mine)), w.loot[w.room.hold.open[id] := theirs]) else w
    case Spend(id, used) =>
      if CanSpend(w, id, used) then w.(room := Next(w.room, UseItems(id, w.room.sessions[id].items - used))) else w
    case Leave(now, clock, nowMs, order) => BoxesAgree(w, now, clock, nowMs, order); Passed(w, now, clock, nowMs, order)
  }

  lemma CorpsesMore(m: Room, order: seq<int>, i: int)
    ensures Corpses(m, order + [i]) == Corpses(m, order) + if IsCorpse(m, i) then [i] else []
  {
    assert (order + [i])[..|order|] == order;
  }

  lemma BuryMore(q: Room, loot: map<int, Items>, sessions: map<int, Session>, corpses: seq<int>, i: int, more: seq<int>)
    requires more == corpses + [i]
    ensures Bury(q, loot, sessions, more)
      == World(SpawnLoot(Boxes(q, |corpses|)),
          Buried(loot, sessions, corpses, q.nextObjectId)[q.nextObjectId + |corpses| := ItemsOf(sessions, i)])
  {
    assert more[..|corpses|] == corpses && more[|corpses|] == i;
    BuriedLast(loot, sessions, more, q.nextObjectId, |corpses|);
    BoxesLast(q, |corpses|);
  }

  lemma BoxesLast(r: Room, n: nat)
    ensures Boxes(r, n + 1) == SpawnLoot(Boxes(r, n))
  {}

  lemma BoxesAgree(w: World, now: int, clock: int, nowMs: u32, order: seq<int>)
    requires KeysAgree(w.room)
    ensures KeysAgree(Passed(w, now, clock, nowMs, order).room)
  {
    BoxesAre(ProcessLeaves(w.room, now, clock, nowMs), |Corpses(MarkAll(w.room, now, clock, nowMs), order)|);
  }

  /** n new containers, held by nobody, and nothing else new. */
  lemma {:induction false} BoxesAre(r: Room, n: nat)
    ensures var q := Boxes(r, n);
      && q == r.(hold := q.hold, nextObjectId := r.nextObjectId + n)
      && q.hold == r.hold.(holders := q.hold.holders)
      && (forall c :: c in q.hold.holders <==> c in r.hold.holders || r.nextObjectId <= c < r.nextObjectId + n)
      && (forall c <- q.hold.holders ::
        q.hold.holders[c] == if r.nextObjectId <= c < r.nextObjectId + n then NOBODY else r.hold.holders[c])
  {
    if n > 0 { BoxesAre(r, n - 1); }
  }

  lemma {:induction false} BuriedIs(loot: map<int, Items>, sessions: map<int, Session>, corpses: seq<int>, first: nat)
    ensures var q := Buried(loot, sessions, corpses, first);
      && (forall c :: c in q <==> c in loot || first <= c < first + |corpses|)
      && (forall c <- q ::
        q[c] == if first <= c < first + |corpses| then ItemsOf(sessions, corpses[c - first]) else loot[c])
  {
    if corpses != [] {
      var n := |corpses| - 1;
      BuriedIs(loot, sessions, corpses[..n], first);
      PutOnTop(Buried(loot, sessions, corpses[..n], first), loot, sessions, corpses, first);
    }
  }

  lemma PutOnTop(q: map<int, Items>, loot: map<int, Items>, sessions: map<int, Session>, corpses: seq<int>, first: nat)
    requires corpses != []
    requires forall c :: c in q <==> c in loot || first <= c < first + |corpses| - 1
    requires forall c <- q ::
      q[c] == if first <= c < first + |corpses| - 1 then ItemsOf(sessions, corpses[..|corpses| - 1][c - first])
      else loot[c]
    ensures var n := |corpses| - 1; var q' := q[first + n := ItemsOf(sessions, corpses[n])];
      && (forall c :: c in q' <==> c in loot || first <= c < first + |corpses|)
      && (forall c <- q' ::
        q'[c] == if first <= c < first + |corpses| then ItemsOf(sessions, corpses[c - first]) else loot[c])
  {
  }

  // ---- The room's part of it is a run of the room ----

  function Spawns(n: nat): seq<Event> { if n == 0 then [] else Spawns(n - 1) + [SpawnContainer] }

  function EventsOf(w: World, s: Step): seq<Event>
    requires KeysAgree(w.room)
  {
    match s
    case Other(e) => if MovesItems(e) then [] else [e]
    case Exchange(id, mine, theirs) => if CanExchange(w, id, mine, theirs) then [UseItems(id, mine)] else []
    case Spend(id, used) => if CanSpend(w, id, used) then [UseItems(id, w.room.sessions[id].items - used)] else []
    case Leave(now, clock, nowMs, order) =>
      [Pass(now, clock, nowMs)] + Spawns(|Corpses(MarkAll(w.room, now, clock, nowMs), order)|)
  }

  predicate Harmless(w: World, s: Step)
    requires KeysAgree(w.room)
  {
    s.Other? ==> SpawnsHarmlessly(w.room, s.e)
  }

  lemma OneSpawnMore(r: Room, es: seq<Event>)
    requires KeysAgree(r)
    ensures After(r, es + [SpawnContainer]) == SpawnLoot(After(r, es))
    ensures Orderly(r, es) ==> Orderly(r, es + [SpawnContainer])
  {
    LastStep(r, es, SpawnContainer);
    NextSpawn(After(r, es));
    assert (es + [SpawnContainer])[..|es + [SpawnContainer]| - 1] == es;
  }

  lemma NextSpawn(r: Room)
    requires KeysAgree(r)
    ensures Next(r, SpawnContainer) == SpawnLoot(r)
  {}

  lemma {:induction false} SpawnsAre(r: Room, n: nat)
    requires KeysAgree(r)
    ensures After(r, Spawns(n)) == Boxes(r, n) && Orderly(r, Spawns(n))
  {
    if n > 0 {
      SpawnsAre(r, n - 1);
      OneSpawnMore(r, Spawns(n - 1));
    }
  }

  lemma PassThenSpawns(r: Room, e: Event, n: nat)
    requires KeysAgree(r) && e.Pass?
    ensures After(r, [e] + Spawns(n)) == Boxes(ProcessLeaves(r, e.now, e.clock, e.nowMs), n)
    ensures Orderly(r, [e] + Spawns(n))
  {
    AfterOne(r, e);
    NextPass(r, e);
    SpawnsAre(Next(r, e), n);
    OneIsOrderly(r, e);
    RunInTwo(r, [e], Spawns(n));
    OrderlyInTwo(r, [e], Spawns(n));
  }

  lemma OneIsOrderly(r: Room, e: Event)
    requires KeysAgree(r) && SpawnsHarmlessly(r, e)
    ensures Orderly(r, [e])
  {
    assert [e][..0] == [];
  }

  lemma StepIsEvents(w: World, s: Step)
    requires KeysAgree(w.room) && Harmless(w, s)
    ensures Moved(w, s).room == After(w.room, EventsOf(w, s)) && Orderly(w.room, EventsOf(w, s))
  {
    match s
    case Leave(now, clock, nowMs, order) =>
      PassThenSpawns(w.room, Pass(now, clock, nowMs), |Corpses(MarkAll(w.room, now, clock, nowMs), order)|);
    case Other(e) =>
      AfterOne(w.room, e);
      OneIsOrderly(w.room, e);
    case Exchange(id, mine, _) =>
      AfterOne(w.room, UseItems(id, mine));
      OneIsOrderly(w.room, UseItems(id, mine));
    case Spend(id, used) =>
      if CanSpend(w, id, used) {
        var e := UseItems(id, w.room.sessions[id].items - used);
        AfterOne(w.room, e);
        OneIsOrderly(w.room, e);
      }
  }

  function WorldAfter(w: World, steps: seq<Step>): (w': World)
    requires KeysAgree(w.room)
    ensures KeysAgree(w'.room)
  {
    if steps == [] then w else Moved(WorldAfter(w, steps[..|steps| - 1]), steps[|steps| - 1])
  }

  function AllEvents(w: World, steps: seq<Step>): seq<Event>
    requires KeysAgree(w.room)
  {
    if steps == [] then []
    else
      var init := steps[..|steps| - 1];
      AllEvents(w, init) + EventsOf(WorldAfter(w, init), steps[|steps| - 1])
  }

  /** Along the way no spawn replaces an object that has or drives anything. */
  ghost predicate AllHarmless(w: World, steps: seq<Step>)
    requires KeysAgree(w.room)
  {
    steps == []
        || (AllHarmless(w, steps[..|steps| - 1]) && Harmless(WorldAfter(w, steps[..|steps| - 1]), steps[|steps| - 1]))
  }

  /** The loop of a pass meets every session once. */
  ghost predicate MeetsAll(s: Step, keys: set<int>) { s.Leave? ==> Lists(s.order, keys) }

  /** Every room that loot passes through is one a run of the room reaches, so what holds of those holds here. */
  lemma {:induction false} RoomIsReached(w: World, steps: seq<Step>)
    requires KeysAgree(w.room) && AllHarmless(w, steps)
    ensures WorldAfter(w, steps).room == After(w.room, AllEvents(w, steps)) && Orderly(w.room, AllEvents(w, steps))
  {
    if steps != [] {
      var init, s := steps[..|steps| - 1], steps[|steps| - 1];
      var before := WorldAfter(w, init);
      RoomIsReached(w, init);
      StepIsEvents(before, s);
      RunInTwo(w.room, AllEvents(w, init), EventsOf(before, s));
      OrderlyInTwo(w.room, AllEvents(w, init), EventsOf(before, s));
    }
  }

  // ---- How much there is ----

  function WipedOut(m: Room, order: seq<int>): seq<int> {
    if order == [] then []
    else WipedOut(m, order[..|order| - 1]) + (if IsWiped(m, order[|order| - 1]) then [order[|order| - 1]] else [])
  }

  /** What the listed sessions carry. */
  function Carried(ids: seq<int>, sessions: map<int, Session>): Items {
    if ids == [] then multiset{} else Carried(ids[..|ids| - 1], sessions) + ItemsOf(sessions, ids[|ids| - 1])
  }

  /** What the containers below n hold. */
  function Stored(loot: map<int, Items>, n: nat): Items {
    if n == 0 then multiset{} else Stored(loot, n - 1) + (if n - 1 in loot then loot[n - 1] else multiset{})
  }

  function Held(w: World, ids: seq<int>): Items { Carried(ids, w.room.sessions) + Stored(w.loot, w.room.nextObjectId) }

  /** What a step destroys: what was fired or spilled, and the things of those cut off. */
  function Lost(w: World, s: Step): Items
    requires KeysAgree(w.room)
  {
    match s
    case Spend(id, used) => if CanSpend(w, id, used) then used else multiset{}
    case Leave(now, clock, nowMs, order) =>
        Carried(WipedOut(MarkAll(w.room, now, clock, nowMs), order), w.room.sessions)
    case _ => multiset{}
  }

  function LostAlong(w: World, steps: seq<Step>): Items
    requires KeysAgree(w.room)
  {
    if steps == [] then multiset{}
    else
      var init := steps[..|steps| - 1];
      LostAlong(w, init) + Lost(WorldAfter(w, init), steps[|steps| - 1])
  }

  /** Every container has its contents, and is numbered below the next object. */
  ghost predicate LootOk(w: World) {
    && KeysAgree(w.room) && (forall c :: c in w.loot <==> c in w.room.hold.holders)
    && forall c <- w.loot :: 0 <= c < w.room.nextObjectId
  }

  lemma {:induction false} CarriedConcat(p: seq<int>, q: seq<int>, sessions: map<int, Session>)
    ensures Carried(p + q, sessions) == Carried(p, sessions) + Carried(q, sessions)
  {
    if q == [] {
      assert p + q == p;
    } else {
      CarriedConcat(p, q[..|q| - 1], sessions);
      assert (p + q)[..|p + q| - 1] == p + q[..|q| - 1];
    }
  }

  lemma CarriedOne(i: int, sessions: map<int, Session>)
    ensures Carried([i], sessions) == ItemsOf(sessions, i)
  {
    assert Carried([i][..0], sessions) == multiset{};
  }

  lemma {:induction false} CarriedSame(ids: seq<int>, sessions: map<int, Session>, sessions': map<int, Session>)
    requires forall i <- ids :: ItemsOf(sessions, i) == ItemsOf(sessions', i)
    ensures Carried(ids, sessions) == Carried(ids, sessions')
  {
    if ids != [] {
      assert ids[|ids| - 1] in ids;
      CarriedSame(ids[..|ids| - 1], sessions, sessions');
    }
  }

  lemma CarriedSplit(ids: seq<int>, k: nat, sessions: map<int, Session>)
    requires k < |ids|
    ensures Carried(ids, sessions) == Carried(ids[..k] + ids[k + 1..], sessions) + ItemsOf(sessions, ids[k])
  {
    assert ids == ids[..k] + [ids[k]] + ids[k + 1..];
    CarriedConcat(ids[..k] + [ids[k]], ids[k + 1..], sessions);
    CarriedConcat(ids[..k], [ids[k]], sessions);
    CarriedConcat(ids[..k], ids[k + 1..], sessions);
    CarriedOne(ids[k], sessions);
  }

  lemma SomethingListed(q: seq<int>)
    ensures q != [] ==> exists i :: i in q
  {
    if q != [] {
      var i := q[0];
      assert i in q;
    }
  }

  /** In whatever order the sessions are listed. */
  lemma {:induction false} CarriedAnyOrder(p: seq<int>, q: seq<int>, sessions: map<int, Session>)
    requires Distinct(p) && Distinct(q) && forall i :: i in p <==> i in q
    ensures Carried(p, sessions) == Carried(q, sessions)
  {
    if p == [] {
      SomethingListed(q);
    } else {
      var n := |p| - 1;
      assert p[n] in p;
      var k :| 0 <= k < |q| && q[k] == p[n];
      var rest := q[..k] + q[k + 1..];
      CarriedSplit(q, k, sessions);
      forall i ensures i in p[..n] <==> i in rest { OthersRemain(p, q, k, i); }
      CarriedAnyOrder(p[..n], rest, sessions);
    }
  }

  lemma OthersRemain(p: seq<int>, q: seq<int>, k: nat, i: int)
    requires Distinct(p) && Distinct(q) && (forall i :: i in p <==> i in q)
    requires p != [] && k < |q| && q[k] == p[|p| - 1]
    ensures i in p[..|p| - 1] <==> i in q[..k] + q[k + 1..]
  {
    assert p == p[..|p| - 1] + [p[|p| - 1]] && q == q[..k] + [q[k]] + q[k + 1..];
    assert i in p <==> i in q;
    assert p[|p| - 1] !in p[..|p| - 1];
    assert q[k] !in q[..k] && q[k] !in q[k + 1..];
  }

  lemma RestDiffers(ids: seq<int>, k: nat, i: int)
    requires Distinct(ids) && k < |ids| && i in ids[..k] + ids[k + 1..]
    ensures i in ids && i != ids[k]
  {
    assert ids == ids[..k] + [ids[k]] + ids[k + 1..];
  }

  /** Only session id's things change. */
  lemma CarriedChange(ids: seq<int>, sessions: map<int, Session>, sessions': map<int, Session>, id: int)
    requires Distinct(ids) && id in ids && forall i <- ids | i != id :: ItemsOf(sessions, i) == ItemsOf(sessions', i)
    ensures Carried(ids, sessions) + ItemsOf(sessions', id) == Carried(ids, sessions') + ItemsOf(sessions, id)
  {
    var k :| 0 <= k < |ids| && ids[k] == id;
    var rest := ids[..k] + ids[k + 1..];
    CarriedSplit(ids, k, sessions);
    CarriedSplit(ids, k, sessions');
    forall i <- rest ensures ItemsOf(sessions, i) == ItemsOf(sessions', i) { RestDiffers(ids, k, i); }
    CarriedSame(rest, sessions, sessions');
  }

  lemma {:induction false} StoredSame(loot: map<int, Items>, loot': map<int, Items>, n: nat)
    requires forall c | 0 <= c < n :: (c in loot <==> c in loot') && (c in loot ==> loot[c] == loot'[c])
    ensures Stored(loot, n) == Stored(loot', n)
  {
    if n > 0 { StoredSame(loot, loot', n - 1); }
  }

  lemma {:induction false} StoredMore(loot: map<int, Items>, n: nat, n': nat)
    requires n <= n' && forall c <- loot :: c < n
    ensures Stored(loot, n') == Stored(loot, n)
    decreases n'
  {
    if n < n' { StoredMore(loot, n, n' - 1); }
  }

  lemma Shuffle(a: Items, b: Items, x: Items, y: Items, z: Items)
    requires a + x == b + y
    ensures a + z + x == b + z + y
  {
    assert a + z + x == a + x + z;
  }

  lemma {:induction false} StoredChange(loot: map<int, Items>, c: int, things: Items, n: nat)
    requires 0 <= c < n && c in loot
    ensures Stored(loot, n) + things == Stored(loot[c := things], n) + loot[c]
  {
    var loot' := loot[c := things];
    if c == n - 1 {
      StoredSame(loot, loot', n - 1);
      Shuffle(Stored(loot, n - 1), Stored(loot', n - 1), multiset{}, multiset{}, loot[c] + things);
    } else {
      StoredChange(loot, c, things, n - 1);
      Shuffle(Stored(loot, n - 1), Stored(loot', n - 1), things, loot[c], if n - 1 in loot then loot[n - 1]
          else multiset{});
    }
  }

  lemma StoredOnTop(loot: map<int, Items>, n: nat, things: Items)
    ensures Stored(loot[n := things], n + 1) == Stored(loot, n) + things
  {
    StoredSame(loot, loot[n := things], n);
  }

  lemma AddUp(all: Items, before: Items, stored: Items, some: Items, one: Items, carried: Items)
    requires all == before + one && before == stored + some && carried == some + one
    ensures all == stored + carried
  {}

  lemma BuriedLast(loot: map<int, Items>, sessions: map<int, Session>, corpses: seq<int>, first: nat, n: nat)
    requires |corpses| == n + 1
    ensures Buried(loot, sessions, corpses, first)
      == Buried(loot, sessions, corpses[..n], first)[first + n := ItemsOf(sessions, corpses[n])]
    ensures Carried(corpses, sessions) == Carried(corpses[..n], sessions) + ItemsOf(sessions, corpses[n])
  {}

  lemma {:induction false} StoredBuried(loot: map<int, Items>, sessions: map<int, Session>, corpses: seq<int>,
      first: nat, top: nat)
    requires top == first + |corpses|
    ensures Stored(Buried(loot, sessions, corpses, first), top) == Stored(loot, first) + Carried(corpses, sessions)
    decreases |corpses|
  {
    if corpses != [] {
      var n := |corpses| - 1;
      var q, one := Buried(loot, sessions, corpses[..n], first), ItemsOf(sessions, corpses[n]);
      StoredBuried(loot, sessions, corpses[..n], first, first + n);
      StoredOnTop(q, first + n, one);
      BuriedLast(loot, sessions, corpses, first, n);
      AddUp(Stored(q[first + n := one], first + n + 1), Stored(q, first + n), Stored(loot, first),
            Carried(corpses[..n], sessions), one, Carried(corpses, sessions));
    }
  }

  // ---- What each step does to the things ----

  lemma TouchedKeepsItems(s: Session, e: Event, hasBody: bool, alive: bool)
    requires TouchesOneSession(e) && !e.UseItems?
    ensures Touched(s, e, hasBody, alive).items == s.items
  {}

  lemma ReplacedKeepsItems(sessions: map<int, Session>, id: int, s: Session, i: int)
    requires id in sessions && s.items == sessions[id].items
    ensures sessions[id := s].Keys == sessions.Keys && ItemsOf(sessions[id := s], i) == ItemsOf(sessions, i)
  {}

  lemma TouchKeepsItems(r: Room, e: Event, i: int)
    requires KeysAgree(r) && TouchesOneSession(e) && !e.UseItems? && e.id in r.sessions
    ensures TouchSession(r, e).sessions.Keys == r.sessions.Keys
      && ItemsOf(TouchSession(r, e).sessions, i) == ItemsOf(r.sessions, i)
  {
    var alive := HasBody(r, e.id) && !DeathPending(r, e.id);
    TouchedKeepsItems(r.sessions[e.id], e, HasBody(r, e.id), alive);
    ReplacedKeepsItems(r.sessions, e.id, Touched(r.sessions[e.id], e, HasBody(r, e.id), alive), i);
  }

  lemma OthersKeepItems(r: Room, e: Event, i: int)
    requires KeysAgree(r) && !MovesItems(e)
    ensures Next(r, e).sessions.Keys == r.sessions.Keys && ItemsOf(Next(r, e).sessions, i) == ItemsOf(r.sessions, i)
  {
    if !TouchesOneSession(e) {
      OthersKeepSessions(r, e);
    } else if e.id in r.sessions {
      TouchKeepsItems(r, e, i);
    }
  }

  ghost predicate SameBoxes(r: Room, q: Room) {
    q.hold.holders.Keys == r.hold.holders.Keys && r.nextObjectId <= q.nextObjectId
  }

  lemma OpenKeepsBoxes(r: Room, id: int, c: int, near: set<(int, int)>)
    requires KeysAgree(r)
    ensures SameBoxes(r, Next(r, Open(id, c, near)))
  {}

  lemma CloseKeepsBoxes(r: Room, id: int)
    requires KeysAgree(r)
    ensures SameBoxes(r, Next(r, Close(id)))
  {}

  lemma SpawnKeepsBoxes(r: Room, id: int)
    requires KeysAgree(r)
    ensures SameBoxes(r, Next(r, SpawnMe(id)))
  {}

  lemma OthersKeepBoxes(r: Room, e: Event)
    requires KeysAgree(r) && !e.Pass? && !e.SpawnContainer?
    ensures SameBoxes(r, Next(r, e))
  {
    if !TouchesOneSession(e) {
      match e
      case SpawnMe(id) => SpawnKeepsBoxes(r, id);
      case Open(id, c, near) => OpenKeepsBoxes(r, id, c, near);
      case Close(id) => CloseKeepsBoxes(r, id);
      case Aggro(_, _, _) =>
      case Authority(_, _, _) =>
      case NpcDies(_) =>
      case PlayerDies(_) =>
    }
  }

  lemma UseIs(r: Room, id: int, items: Items)
    requires KeysAgree(r) && id in r.sessions && IsActiveState(r.sessions[id])
    ensures var q := Next(r, UseItems(id, items));
      q.sessions == r.sessions[id := r.sessions[id].(items := items)] && q.hold == r.hold
          && q.nextObjectId == r.nextObjectId
  {}

  lemma PassKeepsBoxes(r: Room, now: int, clock: int, nowMs: u32)
    requires KeysAgree(r)
    ensures var q := ProcessLeaves(r, now, clock, nowMs);
      q.sessions.Keys == r.sessions.Keys && q.hold.holders.Keys == r.hold.holders.Keys
          && q.nextObjectId == r.nextObjectId
  {}

  lemma MarkedKeepsItems(s: Session, expires: bool, dying: bool, clock: int, nowMs: u32)
    ensures Cleared(Marked(s, expires, dying, clock, nowMs)).items == s.items
  {}

  lemma SettledItems(s: Session, hasBody: bool, now: int)
    ensures Settled(s, hasBody, now).items
      == if s.leaveState == PENDING && hasBody && (s.reason == DEAD || s.reason == DISCONNECTED) then multiset{}
          else s.items
  {}

  lemma MarkAllIs(r: Room, now: int, clock: int, nowMs: u32, i: int)
    requires KeysAgree(r) && i in r.sessions
    ensures var m := MarkAll(r, now, clock, nowMs);
      && i in m.sessions
        && m.sessions[i] == Cleared(Marked(r.sessions[i], Expires(r, now), DeathPending(r, i), clock, nowMs))
      && m.hold == r.hold && m.players == r.players
  {}

  /** A pass takes everything from exactly the dead and the cut off that have a body. */
  lemma PassItems(r: Room, now: int, clock: int, nowMs: u32, i: int)
    requires KeysAgree(r) && i in r.sessions
    ensures var m := MarkAll(r, now, clock, nowMs);
      && ItemsOf(m.sessions, i) == ItemsOf(r.sessions, i)
      && ItemsOf(ProcessLeaves(r, now, clock, nowMs).sessions, i) == if IsCorpse(m, i) || IsWiped(m, i) then multiset{}
        else ItemsOf(r.sessions, i)
  {
    var s := Cleared(Marked(r.sessions[i], Expires(r, now), DeathPending(r, i), clock, nowMs));
    MarkAllIs(r, now, clock, nowMs, i);
    PassIsPointwise(r, now, clock, nowMs, i);
    MarkedKeepsItems(r.sessions[i], Expires(r, now), DeathPending(r, i), clock, nowMs);
    SettledItems(s, r.hold.objects[i] in r.players, now);
  }

  lemma CarriedLast(ids: seq<int>, sessions: map<int, Session>, n: nat)
    requires |ids| == n + 1
    ensures Carried(ids, sessions) == Carried(ids[..n], sessions) + ItemsOf(sessions, ids[n])
  {}

  lemma {:induction false} CarriedFrom(p: seq<int>, i: int, add: bool, sessions: map<int, Session>)
    ensures Carried(p + (if add then [i] else []), sessions) == Carried(p, sessions) + if add then ItemsOf(sessions, i)
      else multiset{}
  {
    if add { CarriedLast(p + [i], sessions, |p|); assert (p + [i])[..|p|] == p; } else { assert p + [] == p; }
  }

  lemma AddIn(all: Items, left: Items, buried: Items, wiped: Items, a: Items, l: Items, b: Items, w: Items)
    requires all == left + buried + wiped && a == l + b + w
    ensures all + a == (left + l) + (buried + b) + (wiped + w)
  {}

  lemma {:induction false} CarriedParts(m: Room, before: map<int, Session>, left: map<int, Session>, ids: seq<int>)
    requires forall i <- ids ::
      ItemsOf(left, i) == if IsCorpse(m, i) || IsWiped(m, i) then multiset{} else ItemsOf(before, i)
    ensures Carried(ids, before)
      == Carried(ids, left) + Carried(Corpses(m, ids), before) + Carried(WipedOut(m, ids), before)
  {
    if ids != [] {
      var n := |ids| - 1;
      var init, i := ids[..n], ids[n];
      assert i in ids;
      CarriedParts(m, before, left, init);
      CarriedLast(ids, before, n);
      CarriedLast(ids, left, n);
      CarriedFrom(Corpses(m, init), i, IsCorpse(m, i), before);
      CarriedFrom(WipedOut(m, init), i, IsWiped(m, i), before);
      AddIn(Carried(init, before), Carried(init, left), Carried(Corpses(m, init), before),
          Carried(WipedOut(m, init), before),
            ItemsOf(before, i), ItemsOf(left, i), if IsCorpse(m, i) then ItemsOf(before, i) else multiset{},
            if IsWiped(m, i) then ItemsOf(before, i) else multiset{});
    }
  }

  // ---- Nothing appears, and only what is named disappears ----

  /** What every step keeps, and what it does to the total. */
  ghost predicate Accounted(w: World, w': World, ids: seq<int>, lost: Items) {
    LootOk(w') && w'.room.sessions.Keys == w.room.sessions.Keys && Held(w', ids) + lost == Held(w, ids)
  }

  lemma OtherAccounted(w: World, e: Event, ids: seq<int>)
    requires LootOk(w) && !MovesItems(e)
    ensures Accounted(w, w.(room := Next(w.room, e)), ids, multiset{})
  {
    var q := Next(w.room, e);
    forall i <- ids ensures ItemsOf(w.room.sessions, i) == ItemsOf(q.sessions, i) { OthersKeepItems(w.room, e, i); }
    OthersKeepItems(w.room, e, 0);
    OthersKeepBoxes(w.room, e);
    CarriedSame(ids, w.room.sessions, q.sessions);
    StoredMore(w.loot, w.room.nextObjectId, q.nextObjectId);
  }

  lemma UseAccounted(w: World, id: int, items: Items, ids: seq<int>)
    requires LootOk(w) && Lists(ids, w.room.sessions.Keys) && id in w.room.sessions
      && IsActiveState(w.room.sessions[id])
    ensures var q := Next(w.room, UseItems(id, items));
      && KeysAgree(q) && q.sessions.Keys == w.room.sessions.Keys && q.hold == w.room.hold
        && q.nextObjectId == w.room.nextObjectId
      && Carried(ids, w.room.sessions) + items == Carried(ids, q.sessions) + w.room.sessions[id].items
  {
    UseIs(w.room, id, items);
    CarriedChange(ids, w.room.sessions, Next(w.room, UseItems(id, items)).sessions, id);
  }

  lemma Balance(carried: Items, stored: Items, carried': Items, stored': Items, mine: Items, theirs: Items,
      mine': Items, theirs': Items)
    requires carried + mine' == carried' + mine && stored + theirs' == stored' + theirs
      && mine' + theirs' == mine + theirs
    ensures carried' + stored' + multiset{} == carried + stored
  {
    forall x: int ensures (carried' + stored' + multiset{})[x] == (carried + stored)[x] {
      assert (carried + mine')[x] == (carried' + mine)[x] && (stored + theirs')[x] == (stored' + theirs)[x]
          && (mine' + theirs')[x] == (mine + theirs)[x];
    }
  }

  lemma ExchangeAccounted(w: World, id: int, mine: Items, theirs: Items, ids: seq<int>)
    requires LootOk(w) && Lists(ids, w.room.sessions.Keys) && CanExchange(w, id, mine, theirs)
    ensures Accounted(w, Moved(w, Exchange(id, mine, theirs)), ids, multiset{})
  {
    var c := w.room.hold.open[id];
    UseAccounted(w, id, mine, ids);
    StoredChange(w.loot, c, theirs, w.room.nextObjectId);
    Balance(Carried(ids, w.room.sessions), Stored(w.loot, w.room.nextObjectId),
        Carried(ids, Next(w.room, UseItems(id, mine)).sessions),
            Stored(w.loot[c := theirs], w.room.nextObjectId), w.room.sessions[id].items, w.loot[c], mine, theirs);
  }

  lemma Spent(carried: Items, carried': Items, stored: Items, items: Items, used: Items)
    requires carried + (items - used) == carried' + items && used <= items
    ensures carried' + stored + used == carried + stored
  {
    forall x: int ensures (carried' + stored + used)[x] == (carried + stored)[x] {
      assert (carried + (items - used))[x] == (carried' + items)[x] && (items - used)[x] == items[x] - used[x];
    }
  }

  lemma SpendAccounted(w: World, id: int, used: Items, ids: seq<int>)
    requires LootOk(w) && Lists(ids, w.room.sessions.Keys) && CanSpend(w, id, used)
    ensures Accounted(w, Moved(w, Spend(id, used)), ids, used)
  {
    var left := w.room.sessions[id].items - used;
    UseAccounted(w, id, left, ids);
    Spent(Carried(ids, w.room.sessions), Carried(ids, Next(w.room, UseItems(id, left)).sessions),
        Stored(w.loot, w.room.nextObjectId),
          w.room.sessions[id].items, used);
  }

  lemma {:induction false} CorpsesAreListed(m: Room, order: seq<int>)
    ensures forall i :: i in Corpses(m, order) <==> i in order && IsCorpse(m, i)
    ensures Distinct(order) ==> Distinct(Corpses(m, order))
  {
    if order != [] {
      var init, i := order[..|order| - 1], order[|order| - 1];
      CorpsesAreListed(m, init);
      assert order == init + [i];
    }
  }

  lemma BuryKeeps(w: World, q: Room, sessions: map<int, Session>, corpses: seq<int>)
    requires LootOk(w) && KeysAgree(q) && q.hold.holders.Keys == w.room.hold.holders.Keys
      && q.nextObjectId == w.room.nextObjectId
    ensures var w' := Bury(q, w.loot, sessions, corpses);
      LootOk(w') && w'.room.sessions == q.sessions && w'.room.nextObjectId == q.nextObjectId + |corpses|
  {
    var w' := Bury(q, w.loot, sessions, corpses);
    BoxesAre(q, |corpses|);
    BuriedIs(w.loot, sessions, corpses, w.room.nextObjectId);
    forall c ensures c in w'.loot <==> c in w'.room.hold.holders {}
  }

  lemma BuryAdds(w: World, q: Room, sessions: map<int, Session>, corpses: seq<int>, k: nat)
    requires LootOk(w) && q.hold.holders.Keys == w.room.hold.holders.Keys && q.nextObjectId == w.room.nextObjectId
      && k < |corpses|
    ensures NewBox(w, Bury(q, w.loot, sessions, corpses), w.room.nextObjectId + k, ItemsOf(sessions, corpses[k]))
  {
    BoxIsThere(q, |corpses|, q.nextObjectId + k);
    LootIsThere(w.loot, sessions, corpses, w.room.nextObjectId, w.room.nextObjectId + k);
    assert q.nextObjectId + k !in q.hold.holders;
  }

  lemma BoxIsThere(r: Room, n: nat, c: int)
    requires r.nextObjectId <= c < r.nextObjectId + n
    ensures c in Boxes(r, n).hold.holders && Boxes(r, n).hold.holders[c] == NOBODY
  {
    BoxesAre(r, n);
  }

  lemma LootIsThere(loot: map<int, Items>, sessions: map<int, Session>, corpses: seq<int>, first: nat, c: int)
    requires first <= c < first + |corpses|
    ensures c in Buried(loot, sessions, corpses, first)
      && Buried(loot, sessions, corpses, first)[c] == ItemsOf(sessions, corpses[c - first])
  {
    BuriedIs(loot, sessions, corpses, first);
  }

  /** What a pass does to rooms, as far as things are concerned: m is the marked room, q the one it leaves. */
  ghost predicate PassLike(r: Room, m: Room, q: Room) {
    && KeysAgree(q) && q.sessions.Keys == r.sessions.Keys
    && q.hold.holders.Keys == r.hold.holders.Keys && q.nextObjectId == r.nextObjectId
    && forall i <- r.sessions ::
      && ItemsOf(m.sessions, i) == ItemsOf(r.sessions, i)
      && ItemsOf(q.sessions, i) == if IsCorpse(m, i) || IsWiped(m, i) then multiset{} else ItemsOf(r.sessions, i)
  }

  lemma PassIsLike(r: Room, now: int, clock: int, nowMs: u32)
    requires KeysAgree(r)
    ensures PassLike(r, MarkAll(r, now, clock, nowMs), ProcessLeaves(r, now, clock, nowMs))
  {
    PassKeepsBoxes(r, now, clock, nowMs);
    forall i <- r.sessions { PassItems(r, now, clock, nowMs, i); }
  }

  /** The things in the new world, from those in the old one, listed in the pass's order and then in ids'. */
  lemma Ledger(before: Items, left: Items, buried: Items, wiped: Items, stored: Items, ids: Items, idsLeft: Items,
      top: Items, put: Items)
    requires before == left + buried + wiped && ids == before && idsLeft == left && put == buried && top == stored + put
    ensures idsLeft + top + wiped == ids + stored
  {
    forall x: int ensures (left + (stored + buried) + wiped)[x] == (left + buried + wiped + stored)[x] {}
  }

  lemma CorpsesCarried(m: Room, order: seq<int>, before: map<int, Session>)
    requires forall i <- order :: ItemsOf(m.sessions, i) == ItemsOf(before, i)
    ensures Carried(Corpses(m, order), m.sessions) == Carried(Corpses(m, order), before)
  {
    CorpsesAreListed(m, order);
    CarriedSame(Corpses(m, order), m.sessions, before);
  }

  lemma PassLedger(m: Room, before: map<int, Session>, left: map<int, Session>, order: seq<int>, loot: map<int, Items>,
      first: nat, top: nat)
    requires top == first + |Corpses(m, order)|
    requires forall i <- order :: ItemsOf(m.sessions, i) == ItemsOf(before, i)
    requires forall i <- order ::
      ItemsOf(left, i) == if IsCorpse(m, i) || IsWiped(m, i) then multiset{} else ItemsOf(before, i)
    ensures Carried(order, left) + Stored(Buried(loot, m.sessions, Corpses(m, order), first), top)
      + Carried(WipedOut(m, order), before)
      == Carried(order, before) + Stored(loot, first)
  {
    var corpses := Corpses(m, order);
    CarriedParts(m, before, left, order);
    CorpsesCarried(m, order, before);
    StoredBuried(loot, m.sessions, corpses, first, top);
    Ledger(Carried(order, before), Carried(order, left), Carried(corpses, before), Carried(WipedOut(m, order), before),
        Stored(loot, first),
           Carried(order, before), Carried(order, left), Stored(Buried(loot, m.sessions, corpses, first), top),
               Carried(corpses, m.sessions));
  }

  lemma Audit(w: World, w': World, order: seq<int>, ids: seq<int>, lost: Items)
    requires LootOk(w') && w'.room.sessions.Keys == w.room.sessions.Keys
    requires Lists(ids, w.room.sessions.Keys) && Lists(order, w.room.sessions.Keys)
    requires Carried(order, w'.room.sessions) + Stored(w'.loot, w'.room.nextObjectId) + lost == Held(w, order)
    ensures Accounted(w, w', ids, lost)
  {
    CarriedAnyOrder(ids, order, w.room.sessions);
    CarriedAnyOrder(ids, order, w'.room.sessions);
  }

  /** w' is the old world with m's corpses buried in q. */
  ghost predicate Buries(w: World, m: Room, q: Room, order: seq<int>, w': World) {
    && LootOk(w') && w'.room.sessions == q.sessions && w'.room.nextObjectId == w.room.nextObjectId + |Corpses(m, order)|
    && w'.loot == Buried(w.loot, m.sessions, Corpses(m, order), w.room.nextObjectId)
  }

  lemma BuriedAccounted(w: World, m: Room, q: Room, order: seq<int>, ids: seq<int>, w': World)
    requires PassLike(w.room, m, q) && Lists(ids, w.room.sessions.Keys) && Lists(order, w.room.sessions.Keys)
      && Buries(w, m, q, order, w')
    ensures Accounted(w, w', ids, Carried(WipedOut(m, order), w.room.sessions))
  {
    PassLedger(m, w.room.sessions, q.sessions, order, w.loot, w.room.nextObjectId, w'.room.nextObjectId);
    Audit(w, w', order, ids, Carried(WipedOut(m, order), w.room.sessions));
  }

  lemma PassAccounted(w: World, m: Room, q: Room, order: seq<int>, ids: seq<int>)
    requires LootOk(w) && PassLike(w.room, m, q) && Lists(ids, w.room.sessions.Keys)
      && Lists(order, w.room.sessions.Keys)
    ensures Accounted(w, Bury(q, w.loot, m.sessions, Corpses(m, order)), ids,
      Carried(WipedOut(m, order), w.room.sessions))
  {
    BuryKeeps(w, q, m.sessions, Corpses(m, order));
    BuriedAccounted(w, m, q, order, ids, Bury(q, w.loot, m.sessions, Corpses(m, order)));
  }

  lemma LeaveAccounted(w: World, now: int, clock: int, nowMs: u32, order: seq<int>, ids: seq<int>)
    requires LootOk(w) && Lists(ids, w.room.sessions.Keys) && Lists(order, w.room.sessions.Keys)
    ensures Accounted(w, Passed(w, now, clock, nowMs, order), ids,
      Carried(WipedOut(MarkAll(w.room, now, clock, nowMs), order), w.room.sessions))
  {
    PassIsLike(w.room, now, clock, nowMs);
    PassAccounted(w, MarkAll(w.room, now, clock, nowMs), ProcessLeaves(w.room, now, clock, nowMs), order, ids);
  }

  lemma StepAccounted(w: World, s: Step, ids: seq<int>)
    requires LootOk(w) && Lists(ids, w.room.sessions.Keys) && MeetsAll(s, w.room.sessions.Keys)
    ensures Accounted(w, Moved(w, s), ids, Lost(w, s))
  {
    match s
    case Other(e) => if !MovesItems(e) { OtherAccounted(w, e, ids); }
    case Exchange(id, mine, theirs) =>
      if CanExchange(w, id, mine, theirs) {
        ExchangeAccounted(w, id, mine, theirs, ids);
      }
    case Spend(id, used) => if CanSpend(w, id, used) { SpendAccounted(w, id, used, ids); }
    case Leave(now, clock, nowMs, order) => LeaveAccounted(w, now, clock, nowMs, order, ids);
  }

  lemma AddLost(now: Items, lost: Items, before: Items, earlier: Items, start: Items)
    requires now + lost == before && before + earlier == start
    ensures now + (earlier + lost) == start
  {
    assert now + (earlier + lost) == now + lost + earlier;
  }

  /** Over any run, with any exchanges, deaths and departures in any order of the loops: the things the players
      carry and the containers hold, with those fired, spilled or cut off, are the things there were. */
  lemma {:induction false} ThingsConserved(w: World, steps: seq<Step>, ids: seq<int>)
    requires LootOk(w) && Lists(ids, w.room.sessions.Keys) && forall s <- steps :: MeetsAll(s, w.room.sessions.Keys)
    ensures Accounted(w, WorldAfter(w, steps), ids, LostAlong(w, steps))
  {
    if steps != [] {
      var init, s := steps[..|steps| - 1], steps[|steps| - 1];
      var before := WorldAfter(w, init);
      assert s in steps;
      ThingsConserved(w, init, ids);
      StepAccounted(before, s, ids);
      AddLost(Held(Moved(before, s), ids), Lost(before, s), Held(before, ids), LostAlong(w, init), Held(w, ids));
    }
  }

  // ---- The dead leave what they had ----

  /** A pass makes a corpse of exactly the sessions it detaches as dead and with a body. */
  lemma CorpseIff(r: Room, now: int, clock: int, nowMs: u32, i: int)
    requires KeysAgree(r) && i in r.sessions
    ensures IsCorpse(MarkAll(r, now, clock, nowMs), i) <==>
      && !HasLeft(r.sessions[i]) && r.hold.objects[i] in r.players
      && i in ProcessLeaves(r, now, clock, nowMs).sessions
      && HasLeft(ProcessLeaves(r, now, clock, nowMs).sessions[i])
        && ProcessLeaves(r, now, clock, nowMs).sessions[i].reason == DEAD
  {
    MarkAllIs(r, now, clock, nowMs, i);
    PassIsPointwise(r, now, clock, nowMs, i);
    MarkedHasLeft(r.sessions[i], Expires(r, now), DeathPending(r, i), clock, nowMs);
    SettledHasLeft(Cleared(Marked(r.sessions[i], Expires(r, now), DeathPending(r, i), clock, nowMs)),
        r.hold.objects[i] in r.players, now);
  }

  lemma MarkedHasLeft(s: Session, expires: bool, dying: bool, clock: int, nowMs: u32)
    ensures HasLeft(Cleared(Marked(s, expires, dying, clock, nowMs))) <==> HasLeft(s)
  {}

  lemma SettledHasLeft(s: Session, hasBody: bool, now: int)
    ensures HasLeft(Settled(s, hasBody, now)) <==> s.leaveState == PENDING || HasLeft(s)
    ensures Settled(s, hasBody, now).reason == s.reason
  {}

  /** When a pass detaches a dead player with a body, all the player had is in a new container of the room that
      nobody holds, a different one for each of them, and the player has nothing. */
  lemma DeadLeaveTheirThings(w: World, now: int, clock: int, nowMs: u32, order: seq<int>, i: int)
    requires LootOk(w) && Lists(order, w.room.sessions.Keys) && i in w.room.sessions
    requires !HasLeft(w.room.sessions[i]) && w.room.hold.objects[i] in w.room.players
    requires var q := ProcessLeaves(w.room, now, clock, nowMs).sessions; i in q && HasLeft(q[i]) && q[i].reason == DEAD
    ensures var w' := Passed(w, now, clock, nowMs, order);
      var corpses := Corpses(MarkAll(w.room, now, clock, nowMs), order);
      && Distinct(corpses) && i in w'.room.sessions && w'.room.sessions[i].items == multiset{}
      && exists k ::
        0 <= k < |corpses| && corpses[k] == i && NewBox(w, w', w.room.nextObjectId + k, w.room.sessions[i].items)
  {
    CorpseIff(w.room, now, clock, nowMs, i);
    PassItems(w.room, now, clock, nowMs, i);
    PassIsLike(w.room, now, clock, nowMs);
    CorpseLeaves(w, MarkAll(w.room, now, clock, nowMs), ProcessLeaves(w.room, now, clock, nowMs), order, i);
  }

  lemma CorpseLeaves(w: World, m: Room, q: Room, order: seq<int>, i: int)
    requires LootOk(w) && PassLike(w.room, m, q) && Distinct(order) && i in order && i in w.room.sessions
      && IsCorpse(m, i)
    ensures var w', corpses := Bury(q, w.loot, m.sessions, Corpses(m, order)), Corpses(m, order);
      && Distinct(corpses) && w'.room.sessions == q.sessions
      && exists k ::
        0 <= k < |corpses| && corpses[k] == i && NewBox(w, w', w.room.nextObjectId + k, w.room.sessions[i].items)
  {
    var corpses := Corpses(m, order);
    CorpsesAreListed(m, order);
    var k :| 0 <= k < |corpses| && corpses[k] == i;
    BuryKeeps(w, q, m.sessions, corpses);
    BuryAdds(w, q, m.sessions, corpses, k);
  }

  ghost predicate NewBox(w: World, w': World, c: int, things: Items) {
    && c !in w.loot && c !in w.room.hold.holders
    && c in w'.loot && w'.loot[c] == things && c in w'.room.hold.holders && w'.room.hold.holders[c] == NOBODY
  }
}
