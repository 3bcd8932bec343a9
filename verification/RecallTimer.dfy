/** Recall by timer: one check a second, five in a row.  The timer's entries outlive what they were for,
    and a generation number tells the current one from the stale ones. */
module RecallTimer {
  import opened UInt32
  import opened SessionModel
  import opened RoomRuns

  const INTERVAL := RECALL_TICK_INTERVAL_MS * TICKS_PER_MS

  datatype Entry = Entry(execAt: int, generation: nat)

  /** A finished recall: when it was asked for and when each check passed. */
  datatype Success = Success(start: int, checks: seq<int>)

  /** start and checks are the history of the generation in progress, successes that of the finished ones;
      now is the latest clock reading so far. */
  datatype Recaller = Recaller(recall: Recall, entries: seq<Entry>, start: int, checks: seq<int>,
      successes: seq<Success>, now: int)

  // ---- One check ----

  predicate IsCurrent(r: Recall, e: Entry) { r.active && r.generation == e.generation }

  /** ok says that the player is in play, not leaving, alive and in the zone. */
  function Checked(r: Recall, e: Entry, ok: bool): Recall {
    if !IsCurrent(r, e) then r
    else if !ok then EndRecall(r)
    else if r.passes + 1 < RECALL_REQUIRED_PASS_COUNT then r.(passes := r.passes + 1)
    else EndRecall(r.(passes := r.passes + 1))
  }

  predicate Succeeds(r: Recall, e: Entry, ok: bool) {
    IsCurrent(r, e) && ok && r.passes + 1 >= RECALL_REQUIRED_PASS_COUNT
  }

  predicate Repeats(r: Recall, e: Entry, ok: bool) {
    IsCurrent(r, e) && ok && r.passes + 1 < RECALL_REQUIRED_PASS_COUNT
  }

  /** The session's own view of a check: its recall moves as above, and it is marked RECALLED exactly on success. */
  lemma TickIsCheck(s: Session, alive: bool, e: Entry, inZone: bool, notifyRSeq: u32, clock: int)
    ensures var s' := RecallTickOf(s, alive, e.generation, inZone, notifyRSeq, clock);
      var ok := s.state == INPLAY && s.leaveState == STAYING && alive && inZone;
      && s'.recall == Checked(s.recall, e, ok)
      && (Succeeds(s.recall, e, ok) ==> s'.reason == RECALLED && s'.leaveState == PENDING && s'.markedAt == clock)
      && (!Succeeds(s.recall, e, ok) ==> s'.reason == s.reason && s'.leaveState == s.leaveState)
  {}

  // ---- The machine ----

  function Without<T>(entries: seq<T>, i: nat): seq<T>
    requires i < |entries|
  {
    entries[..i] + entries[i + 1..]
  }

  /** A request that finds no recall running starts one and schedules its first check. */
  function Request(m: Recaller, spot: nat, clock: int): Recaller {
    if m.recall.active then m
    else
      var r := BeginRecall(m.recall, spot);
      m.(recall := r, entries := m.entries + [Entry(clock + INTERVAL, r.generation)], start := clock, checks := [],
          now := clock)
  }

  /** Leaving the room ends the recall; its entry stays in the timer. */
  function Detach(m: Recaller): Recaller { m.(recall := EndRecall(m.recall)) }

  /** The timer fires entry i; clock is read in the callback. */
  function Fire(m: Recaller, i: nat, ok: bool, clock: int): Recaller
    requires i < |m.entries|
  {
    var e := m.entries[i];
    var left := Without(m.entries, i);
    var checks := if IsCurrent(m.recall, e) && ok then m.checks + [clock] else m.checks;
    Recaller(Checked(m.recall, e, ok),
             if Repeats(m.recall, e, ok) then left + [Entry(clock + INTERVAL, e.generation)] else left,
             m.start, checks,
             if Succeeds(m.recall, e, ok) then m.successes + [Success(m.start, checks)] else m.successes,
             clock)
  }

  datatype Event = Requested(spot: nat, clock: int) | Detached | Fired(i: nat, ok: bool, clock: int)

  /** Clocks do not run backwards, and an entry fires no earlier than it is due. */
  predicate Possible(m: Recaller, e: Event) {
    match e
    case Requested(_, clock) => m.now <= clock
    case Detached => true
    case Fired(i, _, clock) => i < |m.entries| && m.now <= clock && m.entries[i].execAt <= clock
  }

  function Next(m: Recaller, e: Event): Recaller
    requires Possible(m, e)
  {
    match e
    case Requested(spot, clock) => Request(m, spot, clock)
    case Detached => Detach(m)
    case Fired(i, ok, clock) => Fire(m, i, ok, clock)
  }

  // ---- The invariant ----

  function CountOf(entries: seq<Entry>, generation: nat): nat {
    if entries == [] then 0
    else
      CountOf(entries[..|entries| - 1], generation) + (if entries[|entries| - 1].generation == generation then 1 else 0)
  }

  /** Times that start an interval after start and follow each other no closer than an interval. */
  ghost predicate Spaced(start: int, checks: seq<int>) {
    && (checks != [] ==> start + INTERVAL <= checks[0])
    && forall i, j | 0 <= i < j < |checks| :: checks[i] + INTERVAL * (j - i) <= checks[j]
  }

  function LastOf(start: int, checks: seq<int>): int { if checks == [] then start else checks[|checks| - 1] }

  ghost predicate Complete(s: Success) { |s.checks| == RECALL_REQUIRED_PASS_COUNT && Spaced(s.start, s.checks) }

  ghost predicate Ok(m: Recaller) {
    && (forall e <- m.entries :: e.generation <= m.recall.generation)
    && CountOf(m.entries, m.recall.generation) == (if m.recall.active then 1 else 0)
    && (m.recall.active ==>
          && m.recall.passes == |m.checks| < RECALL_REQUIRED_PASS_COUNT && Spaced(m.start, m.checks)
          && forall e <- m.entries | e.generation == m.recall.generation ::
            LastOf(m.start, m.checks) + INTERVAL <= e.execAt)
    && (forall s <- m.successes :: Complete(s))
  }

  lemma {:induction false} CountConcat(p: seq<Entry>, q: seq<Entry>, generation: nat)
    ensures CountOf(p + q, generation) == CountOf(p, generation) + CountOf(q, generation)
  {
    if q == [] {
      assert p + q == p;
    } else {
      CountConcat(p, q[..|q| - 1], generation);
      assert (p + q)[..|p + q| - 1] == p + q[..|q| - 1];
    }
  }

  lemma CountOne(e: Entry, generation: nat)
    ensures CountOf([e], generation) == if e.generation == generation then 1 else 0
  {
    assert CountOf([e][..0], generation) == 0;
  }

  lemma CountWithout(entries: seq<Entry>, i: nat, generation: nat)
    requires i < |entries|
    ensures CountOf(Without(entries, i), generation)
      == CountOf(entries, generation) - (if entries[i].generation == generation then 1 else 0)
  {
    assert entries == entries[..i] + ([entries[i]] + entries[i + 1..]);
    CountConcat(entries[..i], [entries[i]] + entries[i + 1..], generation);
    CountConcat([entries[i]], entries[i + 1..], generation);
    CountOne(entries[i], generation);
    CountConcat(entries[..i], entries[i + 1..], generation);
  }

  lemma {:induction false} NoneOf(entries: seq<Entry>, generation: nat)
    ensures CountOf(entries, generation) == 0 <==> forall e <- entries :: e.generation != generation
  {
    if entries != [] {
      NoneOf(entries[..|entries| - 1], generation);
      assert entries == entries[..|entries| - 1] + [entries[|entries| - 1]];
      assert entries[|entries| - 1] in entries;
    }
  }

  lemma RequestKeeps(m: Recaller, spot: nat, clock: int)
    requires Ok(m)
    ensures Ok(Request(m, spot, clock))
  {
    if !m.recall.active {
      var g := m.recall.generation + 1;
      NoneOf(m.entries, g);
      CountConcat(m.entries, [Entry(clock + INTERVAL, g)], g);
      CountOne(Entry(clock + INTERVAL, g), g);
    }
  }

  lemma DetachKeeps(m: Recaller)
    requires Ok(m)
    ensures Ok(Detach(m))
  {
    NoneOf(m.entries, m.recall.generation + 1);
  }

  lemma SpacedLonger(start: int, checks: seq<int>, t: int)
    requires Spaced(start, checks) && LastOf(start, checks) + INTERVAL <= t
    ensures Spaced(start, checks + [t])
  {}

  lemma WithoutIn<T>(entries: seq<T>, i: nat)
    requires i < |entries|
    ensures forall x <- Without(entries, i) :: x in entries
  {}

  lemma StaleKeeps(m: Recaller, i: nat, ok: bool, clock: int)
    requires Ok(m) && i < |m.entries| && !IsCurrent(m.recall, m.entries[i])
    ensures Ok(Fire(m, i, ok, clock))
  {
    WithoutIn(m.entries, i);
    CountWithout(m.entries, i, m.recall.generation);
    NoneOf(m.entries, m.recall.generation);
    assert m.entries[i] in m.entries;
  }

  lemma NoneLater(entries: seq<Entry>, i: nat, generation: nat)
    requires i < |entries| && forall e <- entries :: e.generation <= generation
    ensures CountOf(Without(entries, i), generation + 1) == 0
    ensures forall e <- Without(entries, i) :: e.generation <= generation + 1
  {
    WithoutIn(entries, i);
    NoneOf(Without(entries, i), generation + 1);
  }

  lemma CancelKeeps(m: Recaller, i: nat, clock: int)
    requires Ok(m) && i < |m.entries| && IsCurrent(m.recall, m.entries[i])
    ensures Ok(Fire(m, i, false, clock))
  {
    NoneLater(m.entries, i, m.recall.generation);
  }

  lemma SuccessKeeps(m: Recaller, i: nat, clock: int)
    requires Ok(m) && i < |m.entries| && m.entries[i].execAt <= clock && Succeeds(m.recall, m.entries[i], true)
    ensures Ok(Fire(m, i, true, clock))
  {
    assert m.entries[i] in m.entries;
    NoneLater(m.entries, i, m.recall.generation);
    SpacedLonger(m.start, m.checks, clock);
    AddSuccess(m.successes, Success(m.start, m.checks + [clock]));
    EndedIsOk(Fire(m, i, true, clock));
  }

  lemma AddSuccess(successes: seq<Success>, s: Success)
    requires Complete(s) && forall x <- successes :: Complete(x)
    ensures forall x <- successes + [s] :: Complete(x)
  {}

  lemma EndedIsOk(m: Recaller)
    requires !m.recall.active && CountOf(m.entries, m.recall.generation) == 0
    requires (forall e <- m.entries :: e.generation <= m.recall.generation) && forall s <- m.successes :: Complete(s)
    ensures Ok(m)
  {}

  lemma RepeatKeeps(m: Recaller, i: nat, ok: bool, clock: int)
    requires Ok(m) && i < |m.entries| && m.entries[i].execAt <= clock && Repeats(m.recall, m.entries[i], ok)
    ensures Ok(Fire(m, i, ok, clock))
  {
    var e, left := m.entries[i], Without(m.entries, i);
    assert e in m.entries;
    WithoutIn(m.entries, i);
    CountWithout(m.entries, i, e.generation);
    NoneOf(left, e.generation);
    SpacedLonger(m.start, m.checks, clock);
    CountConcat(left, [Entry(clock + INTERVAL, e.generation)], e.generation);
    CountOne(Entry(clock + INTERVAL, e.generation), e.generation);
  }

  /** A stale entry changes nothing; a current one is used up, and at most replaced. */
  lemma FireKeeps(m: Recaller, i: nat, ok: bool, clock: int)
    requires Ok(m) && i < |m.entries| && m.entries[i].execAt <= clock
    ensures Ok(Fire(m, i, ok, clock))
  {
    if !IsCurrent(m.recall, m.entries[i]) {
      StaleKeeps(m, i, ok, clock);
    } else if Repeats(m.recall, m.entries[i], ok) {
      RepeatKeeps(m, i, ok, clock);
    } else if ok {
      SuccessKeeps(m, i, clock);
    } else {
      CancelKeeps(m, i, clock);
    }
  }

  function After(m: Recaller, events: seq<Event>): Recaller
    requires AllPossible(m, events)
    decreases |events|, 1
  {
    if events == [] then m else Next(After(m, events[..|events| - 1]), events[|events| - 1])
  }

  predicate AllPossible(m: Recaller, events: seq<Event>)
    decreases |events|, 0
  {
    events == []
        || (AllPossible(m, events[..|events| - 1]) && Possible(After(m, events[..|events| - 1]), events[|events| - 1]))
  }

  const FRESH := Recaller(Recall(false, 0, 0, 0), [], 0, [], [], 0)

  lemma {:induction false} RunKeeps(events: seq<Event>)
    requires AllPossible(FRESH, events)
    ensures Ok(After(FRESH, events))
  {
    if events != [] {
      var m, e := After(FRESH, events[..|events| - 1]), events[|events| - 1];
      RunKeeps(events[..|events| - 1]);
      match e
      case Requested(spot, clock) => RequestKeeps(m, spot, clock);
      case Detached => DetachKeeps(m);
      case Fired(i, ok, clock) => FireKeeps(m, i, ok, clock);
    }
  }

  /** A session is recalling exactly when one entry of its current generation is outstanding; otherwise none is. */
  lemma RecallingIffScheduled(events: seq<Event>)
    requires AllPossible(FRESH, events)
    ensures var m := After(FRESH, events);
      CountOf(m.entries, m.recall.generation) <= 1
          && (m.recall.active <==> CountOf(m.entries, m.recall.generation) == 1)
  {
    RunKeeps(events);
  }

  /** No recall succeeds in less than five seconds: it takes five checks passed by one generation, the
      first a second after the request and each a second after the one before. */
  lemma FiveSecondsAtLeast(events: seq<Event>, k: nat)
    requires AllPossible(FRESH, events) && k < |After(FRESH, events).successes|
    ensures var s := After(FRESH, events).successes[k];
      && |s.checks| == 5 && s.checks[0] - s.start >= 1_000_000_000 && s.checks[4] - s.start >= 5_000_000_000
      && forall i | 0 < i < 5 :: s.checks[i] - s.checks[i - 1] >= 1_000_000_000
  {
    RunKeeps(events);
    assert Complete(After(FRESH, events).successes[k]);
  }

  /** A request that finds no recall under way schedules the first check for a second after it, under a number one
      up; a passed check that is not the fifth schedules the next for a second after it; nothing else schedules any. */
  lemma WhatIsScheduled(m: Recaller, spot: nat, i: nat, ok: bool, clock: int)
    ensures Next(m, Detached).entries == m.entries
    ensures m.now <= clock ==>
      Next(m, Requested(spot, clock)).entries == m.entries
        + if m.recall.active then [] else [Entry(clock + 1_000_000_000, m.recall.generation + 1)]
    ensures Possible(m, Fired(i, ok, clock)) ==>
      var e := m.entries[i];
      Next(m, Fired(i, ok, clock)).entries == m.entries[..i] + m.entries[i + 1..]
        + if m.recall.active && e.generation == m.recall.generation && ok && m.recall.passes < 4
          then [Entry(clock + 1_000_000_000, e.generation)] else []
  {}

  // ---- The timer, which all sessions share ----

  /** An entry of the heap: which session's recall it is to check. */
  datatype Timed = Timed(session: int, entry: Entry)

  /** The entries of one session, in the order of the heap. */
  function Of(heap: seq<Timed>, id: int): seq<Entry> {
    if heap == [] then []
    else Of(heap[..|heap| - 1], id) + (if heap[|heap| - 1].session == id then [heap[|heap| - 1].entry] else [])
  }

  lemma {:induction false} OfConcat(p: seq<Timed>, q: seq<Timed>, id: int)
    ensures Of(p + q, id) == Of(p, id) + Of(q, id)
  {
    if q == [] {
      assert p + q == p;
    } else {
      OfConcat(p, q[..|q| - 1], id);
      assert (p + q)[..|p + q| - 1] == p + q[..|q| - 1];
    }
  }

  lemma OfOne(t: Timed, id: int)
    ensures Of([t], id) == if t.session == id then [t.entry] else []
  {
    assert Of([t][..0], id) == [];
  }

  /** Where entry i of the heap stands among those of its session. */
  function PlaceOf(heap: seq<Timed>, i: nat): nat
    requires i < |heap|
  {
    |Of(heap[..i], heap[i].session)|
  }

  lemma OfSplit(heap: seq<Timed>, i: nat, id: int)
    requires i < |heap|
    ensures Of(heap, id)
      == Of(heap[..i], id) + (if heap[i].session == id then [heap[i].entry] else []) + Of(heap[i + 1..], id)
  {
    assert heap == heap[..i] + [heap[i]] + heap[i + 1..];
    OfConcat(heap[..i] + [heap[i]], heap[i + 1..], id);
    OfConcat(heap[..i], [heap[i]], id);
    OfOne(heap[i], id);
  }

  lemma OfRest(heap: seq<Timed>, i: nat, id: int)
    requires i < |heap|
    ensures Of(Without(heap, i), id) == Of(heap[..i], id) + Of(heap[i + 1..], id)
  {
    OfConcat(heap[..i], heap[i + 1..], id);
  }

  lemma WithoutMiddle(all: seq<Entry>, rest: seq<Entry>, p: seq<Entry>, e: Entry, q: seq<Entry>)
    requires all == p + [e] + q && rest == p + q
    ensures |p| < |all| && all[|p|] == e && Without(all, |p|) == rest
  {}

  lemma WithoutNone(all: seq<Entry>, rest: seq<Entry>, p: seq<Entry>, q: seq<Entry>)
    requires all == p + [] + q && rest == p + q
    ensures all == rest
  {}

  lemma OthersUntouched(heap: seq<Timed>, i: nat, id: int)
    requires i < |heap| && heap[i].session != id
    ensures Of(Without(heap, i), id) == Of(heap, id)
  {
    OfSplit(heap, i, id);
    OfRest(heap, i, id);
    WithoutNone(Of(heap, id), Of(Without(heap, i), id), Of(heap[..i], id), Of(heap[i + 1..], id));
  }

  lemma OwnTaken(heap: seq<Timed>, i: nat, id: int)
    requires i < |heap| && heap[i].session == id
    ensures PlaceOf(heap, i) < |Of(heap, id)| && Of(heap, id)[PlaceOf(heap, i)] == heap[i].entry
    ensures Of(Without(heap, i), id) == Without(Of(heap, id), PlaceOf(heap, i))
  {
    OfSplit(heap, i, id);
    OfRest(heap, i, id);
    WithoutMiddle(Of(heap, id), Of(Without(heap, i), id), Of(heap[..i], id), heap[i].entry, Of(heap[i + 1..], id));
  }

  lemma OfWithout(heap: seq<Timed>, i: nat, id: int)
    requires i < |heap|
    ensures heap[i].session != id ==> Of(Without(heap, i), id) == Of(heap, id)
    ensures heap[i].session == id ==>
      && PlaceOf(heap, i) < |Of(heap, id)| && Of(heap, id)[PlaceOf(heap, i)] == heap[i].entry
      && Of(Without(heap, i), id) == Without(Of(heap, id), PlaceOf(heap, i))
  {
    if heap[i].session == id { OwnTaken(heap, i, id); } else { OthersUntouched(heap, i, id); }
  }

  function Due(heap: seq<Timed>, now: int): seq<Timed> {
    if heap == [] then []
    else Due(heap[..|heap| - 1], now) + (if heap[|heap| - 1].entry.execAt <= now then [heap[|heap| - 1]] else [])
  }

  lemma {:induction false} DueConcat(p: seq<Timed>, q: seq<Timed>, now: int)
    ensures Due(p + q, now) == Due(p, now) + Due(q, now)
  {
    if q == [] {
      assert p + q == p;
    } else {
      DueConcat(p, q[..|q| - 1], now);
      assert (p + q)[..|p + q| - 1] == p + q[..|q| - 1];
    }
  }

  lemma DueOne(t: Timed, now: int)
    ensures Due([t], now) == if t.entry.execAt <= now then [t] else []
  {
    assert Due([t][..0], now) == [];
  }

  /** Taking out a due entry takes it out of the due ones. */
  lemma DueWithout(heap: seq<Timed>, i: nat, now: int)
    requires i < |heap| && heap[i].entry.execAt <= now
    ensures multiset(Due(heap, now)) == multiset(Due(Without(heap, i), now)) + multiset{heap[i]}
  {
    assert heap == heap[..i] + ([heap[i]] + heap[i + 1..]);
    DueConcat(heap[..i], [heap[i]] + heap[i + 1..], now);
    DueConcat([heap[i]], heap[i + 1..], now);
    DueOne(heap[i], now);
    DueConcat(heap[..i], heap[i + 1..], now);
  }

  lemma {:induction false} NothingDue(heap: seq<Timed>, now: int)
    requires forall t <- heap :: now < t.entry.execAt
    ensures Due(heap, now) == []
  {
    if heap != [] {
      assert heap[|heap| - 1] in heap;
      NothingDue(heap[..|heap| - 1], now);
    }
  }

  /** What is due at a reading: every entry whose time has come, as often as the heap has it, and no other. */
  lemma {:induction false} DueIff(heap: seq<Timed>, now: int, t: Timed)
    ensures multiset(Due(heap, now))[t] == if t.entry.execAt <= now then multiset(heap)[t] else 0
  {
    if heap != [] {
      DueIff(heap[..|heap| - 1], now, t);
      assert heap == heap[..|heap| - 1] + [heap[|heap| - 1]];
    }
  }

  /** One session's recall with its history, as in Recaller. */
  datatype Recalling = Recalling(recall: Recall, start: int, checks: seq<int>, successes: seq<Success>, latest: int)

  function ViewOf(r: Recalling, entries: seq<Entry>): Recaller {
    Recaller(r.recall, entries, r.start, r.checks, r.successes, r.latest)
  }

  class TimerExecuter {
    var heap: seq<Timed>
    // The sessions of the process, as a callback finds them under their id.
    var sessions: map<int, Recalling>

    ghost function View(id: int): Recaller
      reads this
      requires id in sessions
    {
      ViewOf(sessions[id], Of(heap, id))
    }

    method Add(delay: int, session: int, generation: nat, clock: int)
      modifies this`heap
      ensures heap == old(heap) + [Timed(session, Entry(clock + delay, generation))]
    {
      heap := heap + [Timed(session, Entry(clock + delay, generation))];
    }

    /** What the heap has at its front. */
    method Earliest() returns (i: nat)
      requires heap != []
      ensures i < |heap| && forall t <- heap :: heap[i].entry.execAt <= t.entry.execAt
    {
      i := 0;
      var j := 1;
      while j < |heap|
        invariant 0 <= i < j <= |heap| && forall k | 0 <= k < j :: heap[i].entry.execAt <= heap[k].entry.execAt
      {
        if heap[j].entry.execAt < heap[i].entry.execAt { i := j; }
        j := j + 1;
      }
    }

    /** A request that begins a recall puts its first check into the timer. */
    method RequestRecall(id: int, spot: nat, clock: int)
      requires id in sessions
      modifies this
      ensures sessions.Keys == old(sessions).Keys && View(id) == Request(old(View(id)), spot, clock)
      ensures forall other <- sessions | other != id :: View(other) == old(View(other))
    {
      var r := sessions[id];
      if r.recall.active { return; }
      var recall := BeginRecall(r.recall, spot);
      sessions := sessions[id := r.(recall := recall, start := clock, checks := [], latest := clock)];
      Add(INTERVAL, id, recall.generation, clock);
      ghost var t := Timed(id, Entry(clock + INTERVAL, recall.generation));
      forall other ensures Of(heap, other) == Of(old(heap), other) + if other == id then [t.entry] else [] {
        OfConcat(old(heap), [t], other);
        OfOne(t, other);
      }
    }

    /** Runs the callback of entry i: one check of one session's recall, which may schedule the next. */
    method RunCallback(i: nat, ok: bool, clock: int)
      requires i < |heap|
      modifies this
      ensures sessions.Keys == old(sessions).Keys && LeavesHeap(old(heap), i, clock, heap)
      ensures old(heap)[i].session in sessions ==>
        && PlaceOf(old(heap), i) < |Of(old(heap), old(heap)[i].session)|
        && View(old(heap)[i].session) == Fire(old(View(heap[i].session)), PlaceOf(old(heap), i), ok, clock)
      ensures forall id <- sessions | id != old(heap)[i].session :: View(id) == old(View(id))
    {
      var t := heap[i];
      ghost var before := heap;
      forall id ensures t.session != id ==> Of(Without(before, i), id) == Of(before, id) { OfWithout(before, i, id); }
      OfWithout(before, i, t.session);
      heap := Without(heap, i);
      if t.session !in sessions { return; }
      var r := sessions[t.session].(latest := clock);
      if !IsCurrent(r.recall, t.entry) {
        sessions := sessions[t.session := r];
        return;
      }
      if !ok {
        sessions := sessions[t.session := r.(recall := EndRecall(r.recall))];
        return;
      }
      r := r.(checks := r.checks + [clock], recall := r.recall.(passes := r.recall.passes + 1));
      if r.recall.passes < RECALL_REQUIRED_PASS_COUNT {
        sessions := sessions[t.session := r];
        Again(t, clock);
        return;
      }
      sessions :=
          sessions[t.session :=
          r.(recall := EndRecall(r.recall), successes := r.successes + [Success(r.start, r.checks)])];
    }

    method Again(t: Timed, clock: int)
      modifies this`heap
      ensures heap == old(heap) + [Timed(t.session, Entry(clock + INTERVAL, t.entry.generation))]
      ensures forall id ::
        Of(heap, id) == Of(old(heap), id) + if id == t.session then [Entry(clock + INTERVAL, t.entry.generation)]
        else []
    {
      Add(INTERVAL, t.session, t.entry.generation, clock);
      ghost var next := Timed(t.session, Entry(clock + INTERVAL, t.entry.generation));
      forall id ensures Of(heap, id) == Of(old(heap), id) + if id == t.session then [next.entry] else [] {
        OfConcat(old(heap), [next], id);
        OfOne(next, id);
      }
    }

    /** Runs every entry due at the reading now, each once and in order of time, and then stops: what the
        callbacks schedule is never due within the same call.  Each callback reads the clock for itself. */
    method Tick(now: int, clock: nat -> int, ok: nat -> bool) returns (executed: seq<Timed>)
      requires forall k :: now <= clock(k)
      modifies this
      ensures forall t <- heap :: now < t.entry.execAt
      ensures multiset(executed) == multiset(Due(old(heap), now))
      ensures forall j, k | 0 <= j < k < |executed| :: executed[j].entry.execAt <= executed[k].entry.execAt
      ensures sessions.Keys == old(sessions).Keys
      ensures forall id <- sessions | old(Ok(View(id))) :: Ok(View(id))
    {
      executed := [];
      ghost var before := heap;
      while heap != []
        invariant multiset(executed) + multiset(Due(heap, now)) == multiset(Due(before, now))
        invariant Ran(executed, heap, now) && sessions.Keys == old(sessions).Keys
        invariant forall id <- sessions | old(Ok(View(id))) :: Ok(View(id))
        decreases |Due(heap, now)|
      {
        var i := Earliest();
        var t := heap[i];
        if now < t.entry.execAt {
          NothingDue(heap, now);
          return;
        }
        ghost var mid := heap;
        RunDue(i, ok(|executed|), clock(|executed|));
        HeapStep(executed, mid, i, clock(|executed|), heap, now);
        executed := executed + [t];
      }
    }

    /** The callback of a due entry keeps every session's recall in order. */
    method RunDue(i: nat, ok: bool, clock: int)
      requires i < |heap| && heap[i].entry.execAt <= clock
      modifies this
      ensures sessions.Keys == old(sessions).Keys && LeavesHeap(old(heap), i, clock, heap)
      ensures forall id <- sessions | old(Ok(View(id))) :: Ok(View(id))
    {
      ghost var t := heap[i];
      OfWithout(heap, i, t.session);
      if t.session in sessions && Ok(View(t.session)) { FireKeeps(View(t.session), PlaceOf(heap, i), ok, clock); }
      RunCallback(i, ok, clock);
    }
  }

  /** Entry i has gone, and at most its next check has come, an interval after the reading. */
  ghost predicate LeavesHeap(heap: seq<Timed>, i: nat, clock: int, heap': seq<Timed>)
    requires i < |heap|
  {
    heap' == Without(heap, i)
        || heap' == Without(heap, i) + [Timed(heap[i].session, Entry(clock + INTERVAL, heap[i].entry.generation))]
  }

  /** What ran so far ran in order of time, before anything still waiting. */
  ghost predicate Ran(executed: seq<Timed>, heap: seq<Timed>, now: int) {
    && (forall j, k | 0 <= j < k < |executed| :: executed[j].entry.execAt <= executed[k].entry.execAt)
    && (forall x <- executed, t <- heap :: x.entry.execAt <= now && x.entry.execAt <= t.entry.execAt)
  }

  lemma RanOneMore(executed: seq<Timed>, heap: seq<Timed>, i: nat, rest: seq<Timed>, now: int)
    requires Ran(executed, heap, now) && i < |heap| && heap[i].entry.execAt <= now
    requires forall t <- heap :: heap[i].entry.execAt <= t.entry.execAt
    requires forall t <- rest :: t in heap || now < t.entry.execAt
    ensures Ran(executed + [heap[i]], rest, now)
  {
    assert heap[i] in heap;
    forall x <- executed ensures x.entry.execAt <= heap[i].entry.execAt {}
    forall j | 0 <= j < |executed|
      ensures executed[j].entry.execAt <= heap[i].entry.execAt
    {
      assert executed[j] in executed;
    }
  }

  lemma HeapStep(executed: seq<Timed>, heap: seq<Timed>, i: nat, clock: int, heap': seq<Timed>, now: int)
    requires Ran(executed, heap, now) && i < |heap| && heap[i].entry.execAt <= now <= clock
    requires forall t <- heap :: heap[i].entry.execAt <= t.entry.execAt
    requires LeavesHeap(heap, i, clock, heap')
    ensures Ran(executed + [heap[i]], heap', now)
    ensures multiset(Due(heap, now)) == multiset(Due(heap', now)) + multiset{heap[i]}
    ensures |Due(heap, now)| == |Due(heap', now)| + 1
  {
    var next := Timed(heap[i].session, Entry(clock + INTERVAL, heap[i].entry.generation));
    WithoutIn(heap, i);
    DueStep(heap, i, now, next);
    OldOrLater(heap, Without(heap, i), next, heap', now);
    RanOneMore(executed, heap, i, heap', now);
  }

  lemma OldOrLater(heap: seq<Timed>, rest: seq<Timed>, next: Timed, heap': seq<Timed>, now: int)
    requires (forall t <- rest :: t in heap) && now < next.entry.execAt && (heap' == rest || heap' == rest + [next])
    ensures forall t <- heap' :: t in heap || now < t.entry.execAt
  {}

  lemma DueStep(heap: seq<Timed>, i: nat, now: int, later: Timed)
    requires i < |heap| && heap[i].entry.execAt <= now < later.entry.execAt
    ensures multiset(Due(heap, now)) == multiset(Due(Without(heap, i), now)) + multiset{heap[i]}
    ensures |Due(heap, now)| == |Due(Without(heap, i), now)| + 1
    ensures Due(Without(heap, i) + [later], now) == Due(Without(heap, i), now)
  {
    DueWithout(heap, i, now);
    assert |multiset(Due(heap, now))| == |Due(heap, now)|;
    DueConcat(Without(heap, i), [later], now);
    DueOne(later, now);
  }
}
