/** Main and one Dedicated process as two machines joined by two reliable queues, under every interleaving
    of their steps.  Main's counter covers whatever it has promised that process, so the fifty session ids
    there suffice and the counter is never cut off. */
module CapacityRuns {
  import opened CapacityModel

  /** leaked is history: the players counted at allocation whom no room will ever hold. */
  datatype System = System(main: Side, dedi: Dedi, reserved: seq<int>, notices: seq<nat>, leaked: nat)

  datatype Action =
    | Allocate(size: nat, pkt: Packet)
    | Bind
    | Deliver
    | Reserve(room: int)
    | Destroy(order: seq<int>)
    | Notice

  function Players(pkts: seq<Packet>): nat {
    if pkts == [] then 0 else |pkts[0].uids| + Players(pkts[1..])
  }

  function Sum(counts: seq<nat>): nat {
    if counts == [] then 0 else counts[0] + Sum(counts[1..])
  }

  ghost predicate Step(s: System, a: Action, s': System) {
    match a
    case Allocate(size, pkt) =>
      // The packet names only the tickets still in Redis; a group is never empty.
      |pkt.uids| <= size && 0 < size
      && s' == s.(main := AfterAllocate(s.main, size, pkt),
                  leaked := s.leaked + (if Takes(s.main, size) then size - |pkt.uids| else 0))
    case Bind => s' == s.(main := s.main.(phase := Ready))
    case Deliver =>
      s.main.wire != []
      && s'.main == s.main.(wire := s.main.wire[1..]) && s'.reserved == s.reserved && s'.notices == s.notices
      && if s.main.wire[0].knownMap
         then RoomMade(s.dedi, s'.dedi, s.main.wire[0].uids) && s'.leaked == s.leaked
         else s'.dedi == s.dedi.(lastRoom := s.dedi.lastRoom + 1) && s'.leaked == s.leaked + |s.main.wire[0].uids|
    case Reserve(room) => room in s.dedi.rooms && s' == s.(reserved := s.reserved + [room])
    case Destroy(order) =>
      s.reserved != []
      && s'.main == s.main && s'.reserved == s.reserved[1..] && s'.leaked == s.leaked
      && if s.reserved[0] in s.dedi.rooms
         then
           RoomGone(s.dedi, s'.dedi, s.reserved[0], order) && s'.notices == s.notices + [|s.dedi.rooms[s.reserved[0]]|]
         else s'.dedi == s.dedi && s'.notices == s.notices
    case Notice =>
      s.notices != [] && s' == s.(main := AfterRelease(s.main, s.notices[0]), notices := s.notices[1..])
  }

  /** Every counted player is queued, on the wire, in a room, in a notice, or was lost on the way. */
  ghost predicate Balanced(s: System) {
    s.main.taken == Players(s.main.queued) + Players(s.main.wire) + |LiveIds(s.dedi)| + Sum(s.notices) + s.leaked
  }

  ghost predicate Ok(s: System) {
    && IdsOk(s.dedi) && |s.dedi.players| == MAX_PLAYER_PER_PROCESS + 1
    && Balanced(s) && 0 <= s.main.taken <= MAX_PLAYER_PER_PROCESS
  }

  ghost predicate Starts(s: System) {
    && s.main == Side(0, Initializing, [], []) && s.reserved == [] && s.notices == [] && s.leaked == 0
    && s.dedi.rooms == map[] && s.dedi.free == seq(MAX_PLAYER_PER_PROCESS, i => i)
    && |s.dedi.players| == MAX_PLAYER_PER_PROCESS + 1 && forall id | 0 <= id < |s.dedi.players| ::
      s.dedi.players[id] == NONE
  }

  lemma StartOk(s: System)
    requires Starts(s)
    ensures Ok(s)
  {
    forall id | 0 <= id < |s.dedi.players| && id != MAX_PLAYER_PER_PROCESS ensures id in s.dedi.free {
      assert s.dedi.free[id] == id;
    }
    FreeIsWhatIsLeft(s.dedi);
  }

  lemma {:induction false} PlayersConcat(p: seq<Packet>, q: seq<Packet>)
    ensures Players(p + q) == Players(p) + Players(q)
  {
    if p == [] {
      assert p + q == q;
    } else {
      PlayersConcat(p[1..], q);
      assert (p + q)[1..] == p[1..] + q;
    }
  }

  lemma {:induction false} SumLast(counts: seq<nat>, n: nat)
    ensures Sum(counts + [n]) == Sum(counts) + n
  {
    if counts == [] {
      assert counts + [n] == [n];
    } else {
      SumLast(counts[1..], n);
      assert (counts + [n])[1..] == counts[1..] + [n];
    }
  }

  lemma AllocateKeeps(s: System, a: Action, s': System)
    requires Ok(s) && a.Allocate? && Step(s, a, s')
    ensures Ok(s')
  {
    PlayersConcat(s.main.queued, [a.pkt]);
    PlayersConcat(s.main.wire, s.main.queued + [a.pkt]);
  }

  /** The ids never run out: a group on the wire finds an id for each of its players in the queue. */
  lemma IdsSuffice(s: System)
    requires Ok(s) && s.main.wire != []
    ensures |s.main.wire[0].uids| <= |s.dedi.free|
  {
    FreeIsWhatIsLeft(s.dedi);
  }

  lemma DeliverKeeps(s: System, a: Action, s': System)
    requires Ok(s) && a.Deliver? && Step(s, a, s')
    ensures Ok(s')
  {
    var pkt := s.main.wire[0];
    if pkt.knownMap {
      IdsSuffice(s);
      MakeRoomKeeps(s.dedi, s'.dedi, pkt.uids);
      MadeCount(s.dedi, s'.dedi, pkt.uids);
    } else {
      assert forall id :: Live(s.dedi, id) <==> Live(s'.dedi, id);
      assert LiveIds(s'.dedi) == LiveIds(s.dedi);
    }
  }

  lemma DestroyKeeps(s: System, a: Action, s': System)
    requires Ok(s) && a.Destroy? && Step(s, a, s')
    ensures Ok(s')
  {
    var room := s.reserved[0];
    if room in s.dedi.rooms {
      DestroyRoomKeeps(s.dedi, s'.dedi, room, a.order);
      GoneCount(s.dedi, s'.dedi, room, a.order);
      SumLast(s.notices, |s.dedi.rooms[room]|);
    }
  }

  /** The cut-off at zero in ReleasePlayers is dead code. */
  lemma ReleaseNeverClamps(s: System)
    requires Ok(s) && s.notices != []
    ensures s.main.taken - s.notices[0] >= 0
    ensures AfterRelease(s.main, s.notices[0]).taken == s.main.taken - s.notices[0]
  {}

  lemma StepKeeps(s: System, a: Action, s': System)
    requires Ok(s) && Step(s, a, s')
    ensures Ok(s')
  {
    match a
    case Allocate(_, _) => AllocateKeeps(s, a, s');
    case Deliver => DeliverKeeps(s, a, s');
    case Destroy(_) => DestroyKeeps(s, a, s');
    case _ =>
  }

  ghost predicate IsRun(run: seq<System>, actions: seq<Action>) {
    && |run| == |actions| + 1 && Starts(run[0])
    && forall i | 0 <= i < |actions| :: Step(run[i], actions[i], run[i + 1])
  }

  /** In every state of every run: Main's counter is exact and within 0..50, the id table has not grown,
      and two rooms never share a session id. */
  lemma {:induction false} CapacityHolds(run: seq<System>, actions: seq<Action>, n: nat)
    requires IsRun(run, actions) && n < |run|
    ensures Ok(run[n])
    ensures forall r, q | r in run[n].dedi.rooms && q in run[n].dedi.rooms && r != q ::
      run[n].dedi.rooms[r] !! run[n].dedi.rooms[q]
  {
    if n == 0 {
      StartOk(run[0]);
    } else {
      CapacityHolds(run, actions, n - 1);
      StepKeeps(run[n - 1], actions[n - 1], run[n]);
    }
  }

  /** Main never counts less than it has promised, and refuses a group exactly when promises and losses
      leave no room for it. */
  lemma RefusedIff(run: seq<System>, actions: seq<Action>, n: nat, size: nat)
    requires IsRun(run, actions) && n < |run|
    ensures var s := run[n];
      && Players(s.main.queued) + Players(s.main.wire) + |LiveIds(s.dedi)| <= s.main.taken
      && (Takes(s.main, size) <==> (s.main.phase != Terminated
          && Players(s.main.queued) + Players(s.main.wire) + |LiveIds(s.dedi)| + Sum(s.notices) + s.leaked
            + size <= MAX_PLAYER_PER_PROCESS))
  {
    CapacityHolds(run, actions, n);
  }

  /** Without lost players an idle Dedicated is counted empty: nothing is ever charged for good. */
  lemma IdleIsEmpty(run: seq<System>, actions: seq<Action>, n: nat)
    requires IsRun(run, actions) && n < |run|
    requires var s := run[n]; s.main.queued == [] && s.main.wire == [] && s.dedi.rooms == map[] && s.notices == []
    ensures run[n].main.taken == run[n].leaked
  {
    CapacityHolds(run, actions, n);
    RangeCount(LiveIds(run[n].dedi), 0);
  }

  // ---- In what order groups go out ----

  /** The groups taken up to the n-th step: those that fitted into the fifty while the process lived. */
  ghost function TakenGroups(run: seq<System>, actions: seq<Action>, n: nat): seq<Packet>
    requires n <= |actions| < |run|
  {
    if n == 0 then []
    else
      var m, a := run[n - 1].main, actions[n - 1];
      TakenGroups(run, actions, n - 1)
      + (if a.Allocate? && 50 - m.taken >= a.size && m.phase != Terminated then [a.pkt] else [])
  }

  /** The groups that have reached the process by then. */
  ghost function ArrivedGroups(run: seq<System>, actions: seq<Action>, n: nat): seq<Packet>
    requires n <= |actions| < |run|
  {
    if n == 0 then []
    else
      var wire := run[n - 1].main.wire;
      ArrivedGroups(run, actions, n - 1) + (if actions[n - 1].Deliver? && wire != [] then [wire[0]] else [])
  }

  lemma Joined(s: seq<Packet>, arrived: seq<Packet>, wire: seq<Packet>, queued: seq<Packet>, pkt: Packet)
    requires s == arrived + wire + queued
    ensures s + [pkt] == arrived + wire + (queued + [pkt])
    ensures s + [pkt] == arrived + (wire + queued + [pkt]) + []
    ensures wire != [] ==> s == arrived + [wire[0]] + wire[1..] + queued
  {}

  lemma StepInOrder(s: System, a: Action, s': System, taken: seq<Packet>, arrived: seq<Packet>)
    requires Step(s, a, s') && taken == arrived + s.main.wire + s.main.queued
    ensures var wire := s.main.wire;
      taken + (if a.Allocate? && 50 - s.main.taken >= a.size && s.main.phase != Terminated then [a.pkt] else [])
      == arrived + (if a.Deliver? && wire != [] then [wire[0]] else []) + s'.main.wire + s'.main.queued
  {
    assert taken + [] == taken && arrived + [] == arrived;
    match a
    case Allocate(size, pkt) =>
      AllocateEffect(s.main, size, pkt);
      Joined(taken, arrived, s.main.wire, s.main.queued, pkt);
    case Deliver => Joined(taken, arrived, s.main.wire, s.main.queued, s.main.wire[0]);
    case _ =>
  }

  /** In every state of every run the groups that were taken are, each once and in the order in which they were
      taken, those that have arrived, then those on the wire, then those waiting for the process to be ready. */
  lemma {:induction false} GroupsInOrder(run: seq<System>, actions: seq<Action>, n: nat)
    requires IsRun(run, actions) && n <= |actions|
    ensures TakenGroups(run, actions, n) == ArrivedGroups(run, actions, n) + run[n].main.wire + run[n].main.queued
  {
    if n > 0 {
      GroupsInOrder(run, actions, n - 1);
      StepInOrder(run[n - 1], actions[n - 1], run[n], TakenGroups(run, actions, n - 1),
          ArrivedGroups(run, actions, n - 1));
    }
  }
}
