/** Match tickets in Redis, shared by the HTTP server, Main and the clock: every script and every single
    command is one atomic step, and the steps of the three interleave freely. */
module TicketProtocol {
  import L = LoginSessions

  type Key = nat

  datatype Status = WAITING | INPROGRESS | SUCCESS

  /** A hash created by HSET on a key that was gone has a status and no uid. */
  datatype Owner = Nobody | User(uid: int)

  datatype Ticket = Ticket(status: Status, owner: Owner)

  /** The value of active_match: the ticket being matched, or the ticket behind the mark of a game in progress. */
  datatype Lock = Matching(ticket: Key) | Ingame(ticket: Key)

  type Tickets = map<Key, Ticket>
  type Locks = map<int, Lock>

  // ---- The scripts ----

  predicate AllWaiting(ts: Tickets, group: seq<Key>) {
    forall k <- group :: k in ts && ts[k].status == WAITING
  }

  function Commit(ts: Tickets, group: seq<Key>): Tickets {
    if AllWaiting(ts, group) then map k | k in ts :: if k in group then ts[k].(status := INPROGRESS) else ts[k] else ts
  }

  function HSetStatus(ts: Tickets, k: Key, status: Status): Tickets {
    ts[k := if k in ts then ts[k].(status := status) else Ticket(status, Nobody)]
  }

  const FORBIDDEN := -1
  const IN_PROGRESS := 0
  const CANCELLED := 1
  const NO_TICKET := 2
  const GAME_RUNNING := 3

  function CancelCode(ts: Tickets, locks: Locks, k: Key, uid: int): int {
    if k !in ts || ts[k].owner == Nobody then (if uid in locks && locks[uid].Ingame? then GAME_RUNNING else NO_TICKET)
    else if ts[k].owner != User(uid) then FORBIDDEN
    else if ts[k].status == WAITING then CANCELLED
    else IN_PROGRESS
  }

  function Cancel(ts: Tickets, locks: Locks, k: Key, uid: int): Tickets {
    if CancelCode(ts, locks, k, uid) == CANCELLED then ts - {k} else ts
  }

  /** A new login is refused while a game runs or a match is being set up. */
  predicate TakeoverRefused(ts: Tickets, locks: Locks, uid: int) {
    uid in locks && (locks[uid].Ingame? || (locks[uid].ticket in ts && ts[locks[uid].ticket].status != WAITING))
  }

  /** The waiting ticket a new login destroys. */
  function TakeoverVictim(ts: Tickets, locks: Locks, uid: int): set<Key> {
    if uid in locks && locks[uid].Matching? && locks[uid].ticket in ts && ts[locks[uid].ticket].status == WAITING
    then {locks[uid].ticket} else {}
  }

  /** The script's answer to a login: refused, or issued, with the waiting ticket it destroyed if any. */
  datatype Takeover = InGame | Matched | Issued | IssuedCancelling(ticket: Key)

  function TakeoverAnswer(ts: Tickets, locks: Locks, uid: int): Takeover {
    if uid !in locks then Issued
    else if locks[uid].Ingame? then InGame
    else if locks[uid].ticket !in ts then Issued
    else if ts[locks[uid].ticket].status == WAITING then IssuedCancelling(locks[uid].ticket)
    else Matched
  }

  class Redis {
    var tickets: Tickets
    var locks: Locks
    var logins: L.Store

    /** The two loops commit a whole group or nothing. */
    method VerifyAndSetMatchStatus(keys: seq<Key>) returns (ok: bool)
      modifies this`tickets
      ensures ok == AllWaiting(old(tickets), keys) && tickets == Commit(old(tickets), keys)
    {
      var i := 0;
      while i < |keys|
        invariant 0 <= i <= |keys| && tickets == old(tickets)
        invariant forall j | 0 <= j < i :: keys[j] in tickets && tickets[keys[j]].status == WAITING
      {
        if keys[i] !in tickets || tickets[keys[i]].status != WAITING { return false; }
        i := i + 1;
      }
      i := 0;
      while i < |keys|
        invariant 0 <= i <= |keys| && tickets.Keys == old(tickets).Keys
        invariant forall k <- tickets ::
          tickets[k] == if k in keys[..i] then old(tickets)[k].(status := INPROGRESS) else old(tickets)[k]
      {
        tickets := HSetStatus(tickets, keys[i], INPROGRESS);
        i := i + 1;
      }
      assert keys[..i] == keys;
      forall k | k in tickets ensures tickets[k] == Commit(old(tickets), keys)[k] {}
      ok := true;
    }

    method MatchCancel(ticketId: Key, reqUid: int) returns (code: int)
      modifies this`tickets
      ensures code == CancelCode(old(tickets), locks, ticketId, reqUid)
        && tickets == Cancel(old(tickets), locks, ticketId, reqUid)
    {
      if ticketId !in tickets || tickets[ticketId].owner == Nobody {
        if reqUid in locks && locks[reqUid].Ingame? { return GAME_RUNNING; }
        return NO_TICKET;
      }
      if tickets[ticketId].owner != User(reqUid) { return FORBIDDEN; }
      if tickets[ticketId].status == WAITING {
        tickets := tickets - {ticketId};
        return CANCELLED;
      }
      code := IN_PROGRESS;
    }

    /** user is the login name that belongs to uid, session the new session key. */
    method LoginTakeover(uid: int, user: L.User, session: L.Sess) returns (answer: Takeover, evicted: bool)
      modifies this
      ensures answer == TakeoverAnswer(old(tickets), old(locks), uid)
      ensures tickets == old(tickets) - TakeoverVictim(old(tickets), old(locks), uid)
      ensures if TakeoverRefused(old(tickets), old(locks), uid)
        then locks == old(locks) && logins == old(logins) && answer in {InGame, Matched} && !evicted
        else (locks == old(locks) - {uid} && logins == L.LogIn(old(logins), user, session)
              && evicted == (user in old(logins).current))
    {
      var cancelled := Issued;
      if uid in locks {
        if locks[uid].Ingame? { return InGame, false; }
        var ticket := locks[uid].ticket;
        if ticket in tickets {
          if tickets[ticket].status == WAITING {
            tickets := tickets - {ticket};
            cancelled := IssuedCancelling(ticket);
          } else {
            return Matched, false;
          }
        }
        locks := locks - {uid};
      }
      evicted := ReplaceSession(user, session);
      answer := cancelled;
    }

    method ReplaceSession(user: L.User, session: L.Sess) returns (evicted: bool)
      modifies this`logins
      ensures logins == L.LogIn(old(logins), user, session) && evicted == (user in old(logins).current)
    {
      evicted := user in logins.current;
      if evicted { logins := logins.(sessions := logins.sessions - {logins.current[user]}); }
      logins := L.Store(logins.sessions[session := user], logins.current[user := session]);
    }

    method Logout(session: L.Sess) returns (found: bool)
      modifies this`logins
      ensures found == (session in old(logins).sessions) && logins == L.LogOut(old(logins), session)
    {
      if session !in logins.sessions { return false; }
      var user := logins.sessions[session];
      logins := logins.(sessions := logins.sessions - {session});
      if user in logins.current && logins.current[user] == session {
        logins := logins.(current := logins.current - {user});
      }
      found := true;
    }
  }

  // ---- The protocol ----

  /** What Main is doing with a group it took to Redis. */
  datatype Hand = Idle | Committed(group: seq<Key>) | RollingBack(group: seq<Key>, next: nat)
      | Refused(group: seq<Key>, next: nat)

  /** How far the writing of a handed ticket's success has come: its owner was read, the owner's lock was
      set by what was read, and the status was written. */
  datatype Update = OwnerRead(owner: Owner) | LockSet | Written

  /** starting holds tickets locked but not yet written, announced those on their way to Main, queue those
      in Main's queue, groups the groups handed to a Dedicated, updates the tickets whose success is being
      written; used, cancelled and revived are history. */
  datatype State = State(
    tickets: Tickets, locks: Locks, starting: map<Key, int>, announced: set<Key>, queue: set<Key>, hand: Hand,
    groups: seq<seq<Key>>, updates: map<Key, Update>, used: set<Key>, cancelled: set<Key>, revived: set<Key>)

  datatype Action =
    | TakeLock(k: Key, uid: int)
    | WriteTicket(k: Key)
    | Receive(k: Key)
    | CommitGroup(group: seq<Key>)
    | Place
    | GiveUp
    | RollBackOne
    | RefuseOne
    | CancelRequest(k: Key, uid: int)
    | Login(uid: int)
    | DropLock(uid: int)
    | Expire(k: Key)
    | ReadOwner(k: Key)
    | MarkIngame(k: Key)
    | Succeed(k: Key)
    | Bind(k: Key)

  function Members(g: seq<Key>): set<Key> { set k | k in g }

  function Handed(groups: seq<seq<Key>>): set<Key> {
    if groups == [] then {} else Handed(groups[..|groups| - 1]) + Members(groups[|groups| - 1])
  }

  predicate Distinct(g: seq<Key>) { forall i, j | 0 <= i < j < |g| :: g[i] != g[j] }

  /** An action that is not possible in a state leaves it alone. */
  function Next(s: State, a: Action): State {
    match a
    case TakeLock(k, uid) =>
      // The ticket id is a new UUID; the lock is set only if absent.
      if k in s.used || uid in s.locks then s
      else s.(locks := s.locks[uid := Matching(k)], starting := s.starting[k := uid], used := s.used + {k})
    case WriteTicket(k) =>
      if k !in s.starting then s
      else s.(tickets := s.tickets[k := Ticket(WAITING, User(s.starting[k]))], starting := s.starting - {k},
          announced := s.announced + {k})
    case Receive(k) =>
      // Main drops a ticket that is already gone.
      if k !in s.announced then s
      else s.(announced := s.announced - {k}, queue := if k in s.tickets then s.queue + {k} else s.queue)
    case CommitGroup(group) =>
      if s.hand != Idle || group == [] || !Distinct(group) || !(Members(group) <= s.queue) then s
      else s.(tickets := Commit(s.tickets, group), hand := if AllWaiting(s.tickets, group) then Committed(group)
          else Refused(group, 0))
    case Place =>
      if !s.hand.Committed? then s
      else s.(groups := s.groups + [s.hand.group], queue := s.queue - Members(s.hand.group), hand := Idle)
    case GiveUp => if s.hand.Committed? then s.(hand := RollingBack(s.hand.group, 0)) else s
    case RollBackOne =>
      if !s.hand.RollingBack? then s
      else if s.hand.next >= |s.hand.group| then s.(hand := Idle)
      else
        var k := s.hand.group[s.hand.next];
        s.(tickets := HSetStatus(s.tickets, k, WAITING), hand := RollingBack(s.hand.group, s.hand.next + 1),
           revived := if k in s.tickets then s.revived else s.revived + {k})
    case RefuseOne =>
      if !s.hand.Refused? then s
      else if s.hand.next >= |s.hand.group| then s.(hand := Idle)
      else
        var k := s.hand.group[s.hand.next];
        s.(queue := if k in s.tickets && s.tickets[k].status == WAITING then s.queue else s.queue - {k},
           hand := Refused(s.hand.group, s.hand.next + 1))
    case CancelRequest(k, uid) =>
      s.(tickets := Cancel(s.tickets, s.locks, k, uid),
         cancelled := if CancelCode(s.tickets, s.locks, k, uid) == CANCELLED then s.cancelled + {k} else s.cancelled)
    case Login(uid) =>
      if TakeoverRefused(s.tickets, s.locks, uid) then s
      else
        var victim := TakeoverVictim(s.tickets, s.locks, uid);
        s.(tickets := s.tickets - victim, locks := s.locks - {uid}, cancelled := s.cancelled + victim)
    case DropLock(uid) => s.(locks := s.locks - {uid})
    case Expire(k) => s.(tickets := s.tickets - {k})
    case ReadOwner(k) =>
      if k !in Handed(s.groups) || k in s.updates then s
      else s.(updates := s.updates[k := OwnerRead(if k in s.tickets then s.tickets[k].owner else Nobody)])
    case MarkIngame(k) =>
      if k !in s.updates || !s.updates[k].OwnerRead? then s
      else s.(updates := s.updates[k := LockSet],
              locks := if s.updates[k].owner.User? then s.locks[s.updates[k].owner.uid := Ingame(k)] else s.locks)
    case Succeed(k) =>
      if k !in s.updates || s.updates[k] != LockSet then s
      else s.(updates := s.updates[k := Written], tickets := HSetStatus(s.tickets, k, SUCCESS),
              revived := if k in s.tickets then s.revived else s.revived + {k})
    case Bind(k) => if k in Handed(s.groups) then s.(tickets := s.tickets - {k}) else s
  }

  // ---- The invariant ----

  /** The keys of the tickets Main still has to roll back. */
  function Unreturned(h: Hand): set<Key> {
    match h
    case Committed(group) => Members(group)
    case RollingBack(group, next) => set i | 0 <= i < |group| && next <= i :: group[i]
    case _ => {}
  }

  /** Where each ticket is: not yet announced, on its way, queued, or handed over. */
  ghost predicate PlacesOk(s: State) {
    && s.starting.Keys + s.announced + s.queue + Handed(s.groups) + s.tickets.Keys <= s.used
    && s.starting.Keys !! s.announced && s.starting.Keys !! s.queue && s.announced !! s.queue
    && Handed(s.groups) !! s.starting.Keys && Handed(s.groups) !! s.announced && Handed(s.groups) !! s.queue
    && s.tickets.Keys !! s.starting.Keys
  }

  ghost predicate HandOk(s: State) {
    && Unreturned(s.hand) <= s.queue
    && (s.hand.Committed? ==> s.hand.group != [] && Distinct(s.hand.group))
    && (s.hand.RollingBack? ==> Distinct(s.hand.group))
    && (forall k <- Unreturned(s.hand) :: k in s.tickets ==> s.tickets[k].status == INPROGRESS)
  }

  ghost predicate HandedOk(s: State) {
    forall k <- Handed(s.groups) :: k in s.tickets ==> s.tickets[k].status != WAITING
  }

  ghost predicate CancelledOk(s: State) {
    && s.cancelled <= s.used && s.cancelled !! s.tickets.Keys && s.cancelled !! s.starting.Keys
    && s.cancelled !! Unreturned(s.hand) && s.cancelled !! Handed(s.groups)
  }

  ghost predicate OwnersOk(s: State) {
    && s.revived <= s.used && s.revived !! s.starting.Keys
    && forall k <- s.tickets :: s.tickets[k].owner == Nobody <==> k in s.revived
  }

  ghost predicate GroupsOk(groups: seq<seq<Key>>) {
    && (forall i | 0 <= i < |groups| :: groups[i] != [] && Distinct(groups[i]))
    && (forall i, j | 0 <= i < j < |groups| :: Members(groups[i]) !! Members(groups[j]))
  }

  /** Only a handed ticket's success is written, and only such a ticket stands behind a mark of a running game. */
  ghost predicate UpdatesOk(s: State) {
    && s.updates.Keys <= Handed(s.groups)
    && (forall uid <- s.locks | s.locks[uid].Ingame? :: s.locks[uid].ticket in Handed(s.groups))
  }

  ghost predicate Ok(s: State) {
    PlacesOk(s) && HandOk(s) && HandedOk(s) && CancelledOk(s) && OwnersOk(s) && GroupsOk(s.groups) && UpdatesOk(s)
  }

  const START := State(map[], map[], map[], {}, {}, Idle, [], map[], {}, {}, {})

  lemma {:induction false} HandedHas(groups: seq<seq<Key>>, i: nat)
    requires i < |groups|
    ensures Members(groups[i]) <= Handed(groups)
  {
    if i < |groups| - 1 { HandedHas(groups[..|groups| - 1], i); }
  }

  lemma HandedGrows(groups: seq<seq<Key>>, g: seq<Key>)
    ensures Handed(groups + [g]) == Handed(groups) + Members(g)
  {
    assert (groups + [g])[..|groups + [g]| - 1] == groups;
  }

  lemma CommitKeeps(s: State, a: Action)
    requires Ok(s) && a.CommitGroup?
    ensures Ok(Next(s, a))
  {
    if s.hand == Idle && a.group != [] && Distinct(a.group) && Members(a.group) <= s.queue {
      if AllWaiting(s.tickets, a.group) {
        CommittedKeeps(s, a.group);
      } else {
        QueueShrinks(s, s.queue, Refused(a.group, 0));
      }
    }
  }

  lemma CommittedKeeps(s: State, group: seq<Key>)
    requires Ok(s) && group != [] && Distinct(group) && Members(group) <= s.queue && AllWaiting(s.tickets, group)
    ensures Ok(s.(tickets := Commit(s.tickets, group), hand := Committed(group)))
  {
    assert Commit(s.tickets, group).Keys == s.tickets.Keys;
  }

  lemma PlaceKeeps(s: State, a: Action)
    requires Ok(s) && a.Place?
    ensures Ok(Next(s, a))
  {
    if s.hand.Committed? {
      var g := s.hand.group;
      HandedGrows(s.groups, g);
      forall i | 0 <= i < |s.groups| ensures Members(s.groups[i]) !! Members(g) { HandedHas(s.groups, i); }
    }
  }

  lemma RollBackKeeps(s: State, a: Action)
    requires Ok(s) && (a.GiveUp? || a.RollBackOne?)
    ensures Ok(Next(s, a))
  {
    if a.RollBackOne? && s.hand.RollingBack? {
      if s.hand.next < |s.hand.group| { RollBackOneKeeps(s); } else { QueueShrinks(s, s.queue, Idle); }
    } else if a.GiveUp? && s.hand.Committed? {
      assert Unreturned(Next(s, a).hand) == Unreturned(s.hand);
    }
  }

  lemma RollBackOneKeeps(s: State)
    requires Ok(s) && s.hand.RollingBack? && s.hand.next < |s.hand.group|
    ensures Ok(Next(s, RollBackOne))
  {
    var k, s' := s.hand.group[s.hand.next], Next(s, RollBackOne);
    assert k in Unreturned(s.hand);
    assert k !in Unreturned(s'.hand);
    assert Unreturned(s'.hand) <= Unreturned(s.hand);
  }

  lemma LockKeeps(s: State, k: Key, uid: int)
    requires Ok(s)
    ensures Ok(Next(s, TakeLock(k, uid)))
  {}

  lemma WriteKeeps(s: State, k: Key)
    requires Ok(s)
    ensures Ok(Next(s, WriteTicket(k)))
  {}

  lemma ReceiveKeeps(s: State, a: Action)
    requires Ok(s) && a.Receive?
    ensures Ok(Next(s, a))
  {}

  lemma RefuseKeeps(s: State, a: Action)
    requires Ok(s) && a.RefuseOne?
    ensures Ok(Next(s, a))
  {
    if s.hand.Refused? {
      var s' := Next(s, a);
      QueueShrinks(s, s'.queue, s'.hand);
    }
  }

  lemma QueueShrinks(s: State, queue: set<Key>, hand: Hand)
    requires Ok(s) && queue <= s.queue && (hand == Idle || hand.Refused?)
    ensures Ok(s.(queue := queue, hand := hand))
  {
    assert Unreturned(hand) == {};
  }

  /** Tickets that go, and are counted as cancelled or not: only waiting ones are cancelled. */
  lemma GoneKeeps(s: State, gone: set<Key>, cancelled: set<Key>, locks: Locks)
    requires Ok(s) && cancelled <= gone && (forall uid <- locks :: uid in s.locks && locks[uid] == s.locks[uid])
    requires forall k <- cancelled :: k in s.tickets && s.tickets[k].status == WAITING
    ensures Ok(s.(tickets := s.tickets - gone, cancelled := s.cancelled + cancelled, locks := locks))
  {}

  lemma CancelKeeps(s: State, k: Key, uid: int)
    requires Ok(s)
    ensures Ok(Next(s, CancelRequest(k, uid)))
  {
    var gone := if CancelCode(s.tickets, s.locks, k, uid) == CANCELLED then {k} else {};
    GoneKeeps(s, gone, gone, s.locks);
    assert s.tickets - {} == s.tickets && s.cancelled + {} == s.cancelled;
  }

  lemma LoginKeeps(s: State, uid: int)
    requires Ok(s)
    ensures Ok(Next(s, Login(uid)))
  {
    GoneKeeps(s, TakeoverVictim(s.tickets, s.locks, uid), TakeoverVictim(s.tickets, s.locks, uid), s.locks - {uid});
  }

  lemma RemovalKeeps(s: State, a: Action)
    requires Ok(s) && (a.DropLock? || a.Expire? || a.Bind?)
    ensures Ok(Next(s, a))
  {
    assert s.cancelled + {} == s.cancelled && s.tickets - {} == s.tickets;
    match a
    case DropLock(uid) => GoneKeeps(s, {}, {}, s.locks - {uid});
    case Expire(k) => GoneKeeps(s, {k}, {}, s.locks);
    case Bind(k) => GoneKeeps(s, {k}, {}, s.locks);
  }

  lemma ReadKeeps(s: State, k: Key)
    requires Ok(s)
    ensures Ok(Next(s, ReadOwner(k)))
  {}

  lemma MarkKeeps(s: State, k: Key)
    requires Ok(s)
    ensures Ok(Next(s, MarkIngame(k)))
  {}

  lemma SuccessKeeps(s: State, k: Key)
    requires Ok(s)
    ensures Ok(Next(s, Succeed(k)))
  {}

  lemma StepKeeps(s: State, a: Action)
    requires Ok(s)
    ensures Ok(Next(s, a))
  {
    match a
    case CommitGroup(_) => CommitKeeps(s, a);
    case Place => PlaceKeeps(s, a);
    case GiveUp => RollBackKeeps(s, a);
    case RollBackOne => RollBackKeeps(s, a);
    case TakeLock(k, uid) => LockKeeps(s, k, uid);
    case WriteTicket(k) => WriteKeeps(s, k);
    case Receive(_) => ReceiveKeeps(s, a);
    case RefuseOne => RefuseKeeps(s, a);
    case ReadOwner(k) => ReadKeeps(s, k);
    case MarkIngame(k) => MarkKeeps(s, k);
    case Succeed(k) => SuccessKeeps(s, k);
    case CancelRequest(k, uid) => CancelKeeps(s, k, uid);
    case Login(uid) => LoginKeeps(s, uid);
    case _ => RemovalKeeps(s, a);
  }

  // ---- Whole runs ----

  function After(s: State, actions: seq<Action>): State {
    if actions == [] then s else Next(After(s, actions[..|actions| - 1]), actions[|actions| - 1])
  }

  lemma {:induction false} RunOk(s: State, actions: seq<Action>)
    requires Ok(s)
    ensures Ok(After(s, actions))
  {
    if actions != [] {
      RunOk(s, actions[..|actions| - 1]);
      StepKeeps(After(s, actions[..|actions| - 1]), actions[|actions| - 1]);
    }
  }

  lemma StepRemembers(s: State, a: Action)
    ensures Handed(s.groups) <= Handed(Next(s, a).groups) && s.cancelled <= Next(s, a).cancelled
      && s.groups <= Next(s, a).groups
  {
    if a.Place? && s.hand.Committed? { HandedGrows(s.groups, s.hand.group); }
  }

  lemma {:induction false} RunRemembers(s: State, actions: seq<Action>)
    ensures Handed(s.groups) <= Handed(After(s, actions).groups) && s.cancelled <= After(s, actions).cancelled
  {
    if actions != [] {
      RunRemembers(s, actions[..|actions| - 1]);
      StepRemembers(After(s, actions[..|actions| - 1]), actions[|actions| - 1]);
    }
  }

  /** Committing a group is all or nothing, takes exactly the waiting ones, and touches no other ticket. */
  lemma CommitAllOrNothing(ts: Tickets, group: seq<Key>)
    ensures Commit(ts, group).Keys == ts.Keys && forall k <- ts | k !in group :: Commit(ts, group)[k] == ts[k]
    ensures AllWaiting(ts, group) ==>
      forall k <- group :: k in Commit(ts, group) && Commit(ts, group)[k] == Ticket(INPROGRESS, ts[k].owner)
    ensures !AllWaiting(ts, group) ==> Commit(ts, group) == ts
    ensures AllWaiting(ts, group) && group != [] ==> !AllWaiting(Commit(ts, group), group)
    ensures AllWaiting(ts, group) <==> forall k <- group :: k in ts && ts[k].status == WAITING
  {
    if AllWaiting(ts, group) && group != [] {
      assert group[0] in group && Commit(ts, group)[group[0]].status == INPROGRESS;
    }
  }

  /** Once handed to a Dedicated, always: under every interleaving that follows, a ticket never waits again,
      no cancellation or login destroys it, and it is in no queue from which another group could take it. */
  lemma HandedForever(before: seq<Action>, later: seq<Action>, k: Key, uid: int)
    requires k in Handed(After(START, before).groups)
    ensures var s := After(After(START, before), later);
      && k in Handed(s.groups) && k !in s.queue && k !in s.announced && k !in s.starting
      && (k in s.tickets ==> s.tickets[k].status != WAITING)
      && CancelCode(s.tickets, s.locks, k, uid) != CANCELLED && k !in TakeoverVictim(s.tickets, s.locks, uid)
  {
    RunOk(START, before);
    RunOk(After(START, before), later);
    RunRemembers(After(START, before), later);
  }

  /** No ticket is in two groups, nor twice in one. */
  lemma OneGroupEach(actions: seq<Action>, i: nat, j: nat, m: nat, n: nat)
    requires var groups := After(START, actions).groups;
      i < |groups| && j < |groups| && m < |groups[i]| && n < |groups[j]| && groups[i][m] == groups[j][n]
    ensures i == j && m == n
  {
    RunOk(START, actions);
    var groups := After(START, actions).groups;
    assert groups[i][m] in Members(groups[i]) && groups[j][n] in Members(groups[j]);
  }

  /** A ticket destroyed by its owner or by a new login stays destroyed and never plays. */
  lemma CancelledForGood(before: seq<Action>, later: seq<Action>, k: Key)
    requires k in After(START, before).cancelled
    ensures var s := After(After(START, before), later); k !in s.tickets && k !in Handed(s.groups)
  {
    RunOk(START, before);
    RunOk(After(START, before), later);
    RunRemembers(After(START, before), later);
  }

  /** Whoever is told that a game is running has a ticket that was handed to a Dedicated, however the reading
      of owners, the setting of locks, logins and cancellations interleave. */
  lemma RunningMeansHanded(actions: seq<Action>, k: Key, uid: int)
    requires var s := After(START, actions); CancelCode(s.tickets, s.locks, k, uid) == GAME_RUNNING
    ensures var s := After(START, actions); uid in s.locks && s.locks[uid].ticket in Handed(s.groups)
  {
    RunOk(START, actions);
  }

  // ---- Whose ticket it is ----

  /** A cancellation takes ticket k exactly if it is stored, waiting and the asking user's; nothing else changes. */
  lemma CancelEffect(s: State, k: Key, uid: int)
    ensures var t := Next(s, CancelRequest(k, uid));
      var goes := k in s.tickets && s.tickets[k] == Ticket(WAITING, User(uid));
      && t == s.(tickets := t.tickets, cancelled := t.cancelled)
      && (forall j: Key :: j in t.tickets <==> j in s.tickets && !(j == k && goes))
      && (forall j <- t.tickets :: t.tickets[j] == s.tickets[j])
      && (forall j: Key :: j in t.cancelled <==> j in s.cancelled || (j == k && goes))
  {}

  /** What each answer to a cancellation says about the store. */
  lemma CancelAnswer(ts: Tickets, locks: Locks, k: Key, uid: int)
    ensures var code := CancelCode(ts, locks, k, uid); var owned := k in ts && ts[k].owner != Nobody;
      var plays := uid in locks && locks[uid].Ingame?;
      && (code == -1 <==> owned && ts[k].owner != User(uid))
      && (code == 0 <==> owned && ts[k].owner == User(uid) && ts[k].status != WAITING)
      && (code == 1 <==> owned && ts[k].owner == User(uid) && ts[k].status == WAITING)
      && (code == 2 <==> !owned && !plays)
      && (code == 3 <==> !owned && plays)
  {}

  /** A new login is refused exactly while the user's game runs or the ticket of its lock is past waiting, and then
      changes nothing; otherwise its lock goes, with the ticket behind it if that still waits, and nothing else. */
  lemma LoginEffect(s: State, uid: int)
    ensures var t := Next(s, Login(uid)); var lock := if uid in s.locks then s.locks[uid] else Matching(0);
      var waits :=
        uid in s.locks && lock.Matching? && lock.ticket in s.tickets && s.tickets[lock.ticket].status == WAITING;
      if uid in s.locks && (lock.Ingame? || (lock.ticket in s.tickets && !waits)) then t == s
      else
        && t == s.(tickets := t.tickets, locks := t.locks, cancelled := t.cancelled)
        && (forall j: Key :: j in t.tickets <==> j in s.tickets && !(waits && j == lock.ticket))
        && (forall j <- t.tickets :: t.tickets[j] == s.tickets[j])
        && (forall v: int :: v in t.locks <==> v in s.locks && v != uid)
        && (forall v <- t.locks :: t.locks[v] == s.locks[v])
        && (forall j: Key :: j in t.cancelled <==> j in s.cancelled || (waits && j == lock.ticket))
  {}

  /** What a login is answered. */
  lemma LoginAnswer(ts: Tickets, locks: Locks, uid: int)
    ensures var answer := TakeoverAnswer(ts, locks, uid);
      && (answer == InGame <==> uid in locks && locks[uid].Ingame?)
      && (answer == Matched <==>
        uid in locks && locks[uid].Matching? && locks[uid].ticket in ts
        && ts[locks[uid].ticket].status in {INPROGRESS, SUCCESS})
      && (forall k: Key :: answer == IssuedCancelling(k) <==>
        uid in locks && locks[uid] == Matching(k) && k in ts && ts[k].status == WAITING)
      && (answer == Issued <==> (uid in locks ==> locks[uid].Matching? && locks[uid].ticket !in ts))
  {}

  /** A lock is set only where there is none, and a ticket written under its taker's name, waiting. */
  lemma StartEffect(s: State, k: Key, uid: int)
    ensures var t := Next(s, TakeLock(k, uid));
      if k in s.used || uid in s.locks then t == s
      else
        && uid in t.locks && t.locks[uid] == Matching(k)
        && k in t.starting && t.starting[k] == uid && t.tickets == s.tickets
        && forall v <- s.locks :: v in t.locks && t.locks[v] == s.locks[v]
    ensures var t := Next(s, WriteTicket(k));
      if k !in s.starting then t == s
      else
        && k in t.tickets && t.tickets[k] == Ticket(WAITING, User(s.starting[k])) && t.locks == s.locks
        && forall j <- s.tickets | j != k :: j in t.tickets && t.tickets[j] == s.tickets[j]
  {}

  /** A placed group is handed over and leaves Main's queue; one given up is rolled back ticket by ticket and stays. */
  lemma PlaceEffect(s: State)
    requires s.hand.Committed?
    ensures var t := Next(s, Place);
      t == s.(groups := s.groups + [s.hand.group], queue := t.queue, hand := Idle)
      && forall j: Key :: j in t.queue <==> j in s.queue && j !in s.hand.group
    ensures Next(s, GiveUp) == s.(hand := RollingBack(s.hand.group, 0))
  {}

  /** A handed ticket's success is written in three steps: first its owner is read, once. */
  lemma OwnerReadEffect(s: State, k: Key)
    requires k in Handed(s.groups) && k !in s.updates && k in s.tickets
    ensures Next(s, ReadOwner(k)) == s.(updates := s.updates[k := OwnerRead(s.tickets[k].owner)])
  {}

  /** Then that owner's lock marks the running game. */
  lemma IngameEffect(s: State, k: Key, uid: int)
    requires k in s.updates && s.updates[k] == OwnerRead(User(uid))
    ensures Next(s, MarkIngame(k)) == s.(updates := s.updates[k := LockSet], locks := s.locks[uid := Ingame(k)])
  {}

  /** Last the status is set; the owner stays. */
  lemma SuccessEffect(s: State, k: Key)
    requires k in s.updates && s.updates[k] == LockSet && k in s.tickets
    ensures Next(s, Succeed(k)) == s.(updates := s.updates[k := Written], revived := Next(s, Succeed(k)).revived,
      tickets := s.tickets[k := Ticket(SUCCESS, s.tickets[k].owner)])
    ensures Next(s, Succeed(k)).revived == s.revived
  {}

  /** Of a refused group exactly those leave Main's queue that are gone or no longer wait. */
  lemma RefuseEffect(s: State, j: Key)
    requires s.hand.Refused? && s.hand.next < |s.hand.group|
    ensures var t := Next(s, RefuseOne);
      && t.tickets == s.tickets && t.hand == Refused(s.hand.group, s.hand.next + 1)
      && (j in t.queue <==>
        j in s.queue && (j == s.hand.group[s.hand.next] ==> j in s.tickets && s.tickets[j].status == WAITING))
  {}

  /** A lock names a ticket of its own user: the one being written or the one stored. */
  ghost predicate LocksOk(s: State) {
    forall uid <- s.locks :: LockOk(s, s.locks[uid], uid)
  }

  ghost predicate LockOk(s: State, lock: Lock, uid: int) {
    && lock.ticket in s.used
    && (lock.Matching? ==>
      && (lock.ticket in s.starting ==> s.starting[lock.ticket] == uid)
      && (lock.ticket in s.tickets ==> s.tickets[lock.ticket].owner in {Nobody, User(uid)}))
  }

  /** Steps after which every lock was there before, and no ticket has gained an owner. */
  ghost predicate Calm(s: State, t: State) {
    && (forall uid <- t.locks :: uid in s.locks && t.locks[uid] == s.locks[uid])
    && s.used <= t.used && (forall k <- t.starting :: k in s.starting && t.starting[k] == s.starting[k])
    && (forall k <- t.tickets ::
      t.tickets[k].owner == Nobody || (k in s.tickets && t.tickets[k].owner == s.tickets[k].owner))
  }

  lemma CalmKeepsLocks(s: State, t: State)
    requires LocksOk(s) && Calm(s, t)
    ensures LocksOk(t)
  {
    forall uid <- t.locks ensures LockOk(t, t.locks[uid], uid) { assert LockOk(s, s.locks[uid], uid); }
  }

  lemma TakeLockKeepsLocks(s: State, k: Key, uid: int)
    requires Ok(s) && LocksOk(s)
    ensures LocksOk(Next(s, TakeLock(k, uid)))
  {
    var t := Next(s, TakeLock(k, uid));
    forall v <- t.locks ensures LockOk(t, t.locks[v], v) { if v in s.locks { assert LockOk(s, s.locks[v], v); } }
  }

  lemma WriteKeepsLocks(s: State, k: Key)
    requires Ok(s) && LocksOk(s)
    ensures LocksOk(Next(s, WriteTicket(k)))
  {
    var t := Next(s, WriteTicket(k));
    forall v <- t.locks ensures LockOk(t, t.locks[v], v) { assert LockOk(s, s.locks[v], v); }
  }

  lemma MarkKeepsLocks(s: State, k: Key)
    requires Ok(s) && LocksOk(s)
    ensures LocksOk(Next(s, MarkIngame(k)))
  {
    var t := Next(s, MarkIngame(k));
    if k in s.updates { assert k in s.used; }
    forall v <- t.locks ensures LockOk(t, t.locks[v], v) { if v in s.locks { assert LockOk(s, s.locks[v], v); } }
  }

  lemma OthersAreCalm(s: State, a: Action)
    requires !a.TakeLock? && !a.WriteTicket? && !a.MarkIngame?
    ensures Calm(s, Next(s, a))
  {
    match a
    case CancelRequest(k, uid) => CancelEffect(s, k, uid);
    case Login(uid) => LoginEffect(s, uid);
    case CommitGroup(group) => CommitIsCalm(s, group);
    case RollBackOne => WritingIsCalm(s);
    case Succeed(k) => SuccessIsCalm(s, k);
    case _ => QuietIsCalm(s, a);
  }

  lemma QuietIsCalm(s: State, a: Action)
    requires !a.TakeLock? && !a.WriteTicket? && !a.MarkIngame?
    requires !a.CancelRequest? && !a.Login? && !a.CommitGroup? && !a.RollBackOne? && !a.Succeed?
    ensures Calm(s, Next(s, a))
  {}

  lemma CommitIsCalm(s: State, group: seq<Key>)
    ensures Calm(s, Next(s, CommitGroup(group)))
  {
    CommitAllOrNothing(s.tickets, group);
  }

  lemma WritingIsCalm(s: State)
    ensures Calm(s, Next(s, RollBackOne))
  {}

  lemma SuccessIsCalm(s: State, k: Key)
    ensures Calm(s, Next(s, Succeed(k)))
  {}

  lemma {:induction false} RunLocksOk(actions: seq<Action>)
    ensures LocksOk(After(START, actions))
  {
    if actions != [] {
      var s, a := After(START, actions[..|actions| - 1]), actions[|actions| - 1];
      RunLocksOk(actions[..|actions| - 1]);
      RunOk(START, actions[..|actions| - 1]);
      match a
      case TakeLock(k, uid) => TakeLockKeepsLocks(s, k, uid);
      case WriteTicket(k) => WriteKeepsLocks(s, k);
      case MarkIngame(k) => MarkKeepsLocks(s, k);
      case _ => OthersAreCalm(s, a); CalmKeepsLocks(s, Next(s, a));
    }
  }

  /** What can take a user's ticket: the user's own cancellation or new login, its expiry, and its game. */
  predicate MayTake(a: Action, k: Key, uid: int) {
    a == CancelRequest(k, uid) || a == Login(uid) || a == Expire(k) || a == Bind(k)
  }

  /** In every reachable state nothing else takes a user's ticket, no other user's cancellation or login above all,
      or puts another name on it. */
  lemma NobodyElseTakesIt(before: seq<Action>, a: Action, k: Key, uid: int)
    requires k in After(START, before).tickets && After(START, before).tickets[k].owner == User(uid)
    requires !MayTake(a, k, uid)
    ensures k in Next(After(START, before), a).tickets && Next(After(START, before), a).tickets[k].owner == User(uid)
  {
    RunOk(START, before);
    RunLocksOk(before);
    NobodyElseTakes(After(START, before), a, k, uid);
  }

  lemma NobodyElseTakes(s: State, a: Action, k: Key, uid: int)
    requires Ok(s) && LocksOk(s) && k in s.tickets && s.tickets[k].owner == User(uid) && !MayTake(a, k, uid)
    ensures k in Next(s, a).tickets && Next(s, a).tickets[k].owner == User(uid)
  {
    match a
    case CancelRequest(j, v) => CancelEffect(s, j, v);
    case Login(v) => OthersLogIn(s, v, k, uid);
    case _ => KeepsItsOwner(s, a, k);
  }

  lemma OthersLogIn(s: State, v: int, k: Key, uid: int)
    requires LocksOk(s) && k in s.tickets && s.tickets[k].owner == User(uid) && v != uid
    ensures k in Next(s, Login(v)).tickets && Next(s, Login(v)).tickets[k] == s.tickets[k]
  {
    LoginEffect(s, v);
    if v in s.locks { assert LockOk(s, s.locks[v], v); }
  }

  lemma KeepsItsOwner(s: State, a: Action, k: Key)
    requires Ok(s) && k in s.tickets && !a.CancelRequest? && !a.Login? && a != Expire(k) && a != Bind(k)
    ensures k in Next(s, a).tickets && Next(s, a).tickets[k].owner == s.tickets[k].owner
  {
    match a
    case WriteTicket(j) => assert k !in s.starting;
    case CommitGroup(group) => CommitAllOrNothing(s.tickets, group);
    case RollBackOne => RollBackKeepsNames(s, k);
    case Succeed(j) => SuccessKeepsNames(s, j, k);
    case Expire(_) =>
    case Bind(_) =>
    case _ => SameTickets(s, a);
  }

  lemma RollBackKeepsNames(s: State, k: Key)
    requires k in s.tickets
    ensures k in Next(s, RollBackOne).tickets && Next(s, RollBackOne).tickets[k].owner == s.tickets[k].owner
  {}

  lemma SuccessKeepsNames(s: State, j: Key, k: Key)
    requires k in s.tickets
    ensures k in Next(s, Succeed(j)).tickets && Next(s, Succeed(j)).tickets[k].owner == s.tickets[k].owner
  {}

  lemma SameTickets(s: State, a: Action)
    requires !a.CancelRequest? && !a.Login? && !a.WriteTicket? && !a.CommitGroup? && !a.RollBackOne? && !a.Succeed?
    requires !a.Expire? && !a.Bind?
    ensures Next(s, a).tickets == s.tickets
  {}

  /** So over any run without one of these the ticket stays the user's. */
  lemma {:induction false} StaysTheUsers(before: seq<Action>, later: seq<Action>, k: Key, uid: int)
    requires k in After(START, before).tickets && After(START, before).tickets[k].owner == User(uid)
    requires forall a <- later :: !MayTake(a, k, uid)
    ensures k in After(START, before + later).tickets && After(START, before + later).tickets[k].owner == User(uid)
  {
    if later == [] {
      assert before + later == before;
    } else {
      var n := |later| - 1;
      assert later[n] in later && forall a <- later[..n] :: a in later;
      StaysTheUsers(before, later[..n], k, uid);
      NobodyElseTakesIt(before + later[..n], later[n], k, uid);
      assert before + later == (before + later[..n]) + [later[n]];
      Unfold(before + later[..n], later[n]);
    }
  }

  // ---- Tickets without an owner ----

  /** Rolling back keeps the ticket's owner exactly when the ticket has not expired in between. */
  lemma RollBackKeepsOwnerIff(s: State)
    requires s.hand.RollingBack? && s.hand.next < |s.hand.group| && Ok(s)
    ensures var k := s.hand.group[s.hand.next];
      && k in Next(s, RollBackOne).tickets && Next(s, RollBackOne).tickets[k].status == WAITING
      && (Next(s, RollBackOne).tickets[k].owner.User? <==> k in s.tickets && s.tickets[k].owner.User?)
  {}

  /** Player 7 has asked for a match and waits in Main's queue. */
  const QUEUED :=
      State(map[0 := Ticket(WAITING, User(7))], map[7 := Matching(0)], map[], {}, {0}, Idle, [], map[], {0}, {}, {})

  lemma QueuedIsReachable()
    ensures After(START, [TakeLock(0, 7), WriteTicket(0), Receive(0)]) == QUEUED
  {
    Unfold([], TakeLock(0, 7));
    Unfold([TakeLock(0, 7)], WriteTicket(0));
    Unfold([TakeLock(0, 7), WriteTicket(0)], Receive(0));
  }

  /** The same player's group is committed and finds no server, and the ticket expires before it is rolled back. */
  function GivingUp(): seq<Action> {
    [TakeLock(0, 7), WriteTicket(0), Receive(0)] + [CommitGroup([0])] + [GiveUp] + [Expire(0)] + [RollBackOne]
  }

  /** The ticket comes back waiting, with nobody's name on it. */
  lemma RollBackRevives()
    ensures var s := After(START, GivingUp()); s.tickets == map[0 := Ticket(WAITING, Nobody)] && 0 in s.queue
  {
    var es := [TakeLock(0, 7), WriteTicket(0), Receive(0)];
    QueuedIsReachable();
    Unfold(es, CommitGroup([0]));
    Unfold(es + [CommitGroup([0])], GiveUp);
    Unfold(es + [CommitGroup([0])] + [GiveUp], Expire(0));
    Unfold(es + [CommitGroup([0])] + [GiveUp] + [Expire(0)], RollBackOne);
    QueuedRevives();
  }

  lemma QueuedRevives()
    ensures var s := Next(Next(Next(Next(QUEUED, CommitGroup([0])), GiveUp), Expire(0)), RollBackOne);
      s.tickets == map[0 := Ticket(WAITING, Nobody)] && 0 in s.queue
  {
    var s := Next(QUEUED, CommitGroup([0]));
    assert Members([0]) == {0};
    assert s.hand == Committed([0]) && s.queue == {0} && s.tickets.Keys == {0};
    ExpiredRevives(s);
  }

  lemma ExpiredRevives(s: State)
    requires s.hand == Committed([0]) && s.queue == {0} && s.tickets.Keys == {0}
    ensures var t := Next(Next(Next(s, GiveUp), Expire(0)), RollBackOne);
      t.tickets == map[0 := Ticket(WAITING, Nobody)] && 0 in t.queue
  {
    var t := Next(Next(s, GiveUp), Expire(0));
    assert t.tickets == map[] && t.hand == RollingBack([0], 0) && t.queue == {0};
  }

  lemma Unfold(actions: seq<Action>, a: Action)
    ensures After(START, actions + [a]) == Next(After(START, actions), a)
  {
    assert (actions + [a])[..|actions + [a]| - 1] == actions;
  }

  /** In every reachable state a ticket has no owner exactly when it was written to after it was gone. */
  lemma OwnerlessIff(actions: seq<Action>, k: Key)
    requires k in After(START, actions).tickets
    ensures var s := After(START, actions); s.tickets[k].owner == Nobody <==> k in s.revived
  {
    RunOk(START, actions);
  }

  /** What rolls a ticket back, and what writes its success. */
  predicate RollsBack(s: State, a: Action, k: Key) {
    a.RollBackOne? && s.hand.RollingBack? && s.hand.next < |s.hand.group| && s.hand.group[s.hand.next] == k
  }

  predicate WritesSuccess(s: State, a: Action, k: Key) {
    a == Succeed(k) && k in s.updates && s.updates[k] == LockSet
  }

  /** A step writes to a ticket that is gone in these two ways and in no other: rolling it back, which leaves it
      waiting for a match, and writing its success. */
  lemma RevivesIff(s: State, a: Action, k: Key)
    requires Ok(s) && k !in s.revived
    ensures k in Next(s, a).revived <==> k !in s.tickets && (RollsBack(s, a, k) || WritesSuccess(s, a, k))
    ensures k in Next(s, a).revived ==> WrittenAnew(s, a, k)
  {
    match a
    case RollBackOne => RollBackRevivesIff(s, k);
    case Succeed(j) => SuccessRevivesIff(s, j, k);
    case _ =>
  }

  predicate WrittenAnew(s: State, a: Action, k: Key) {
    var ts := Next(s, a).tickets;
    k in ts && ts[k] == Ticket(if a.RollBackOne? then WAITING else SUCCESS, Nobody)
  }

  lemma RollBackRevivesIff(s: State, k: Key)
    requires k !in s.revived
    ensures k in Next(s, RollBackOne).revived <==> k !in s.tickets && RollsBack(s, RollBackOne, k)
    ensures k in Next(s, RollBackOne).revived ==> WrittenAnew(s, RollBackOne, k)
  {}

  lemma SuccessRevivesIff(s: State, j: Key, k: Key)
    requires k !in s.revived
    ensures k in Next(s, Succeed(j)).revived <==> k !in s.tickets && WritesSuccess(s, Succeed(j), k)
    ensures k in Next(s, Succeed(j)).revived ==> WrittenAnew(s, Succeed(j), k)
  {}

  /** Nobody can cancel such a ticket, and only a ticket written to after it was gone is one. */
  lemma OwnerlessIsStuck(actions: seq<Action>, k: Key, uid: int)
    requires var s := After(START, actions); k in s.tickets && s.tickets[k].owner == Nobody
    ensures var s := After(START, actions);
      && k in s.revived
      && CancelCode(s.tickets, s.locks, k, uid) in {NO_TICKET, GAME_RUNNING}
      && Cancel(s.tickets, s.locks, k, uid) == s.tickets
  {
    OwnerlessIff(actions, k);
  }
}
