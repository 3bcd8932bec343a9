/** The matchmaker of one map: a queue in order of arrival, an index of it by aggression, and the four
    steps of a cycle over them.  Redis and the Dedicated servers answer through Outcome. */
module Matchmakers {
  import opened Matching

  /** How a group fared: committed and handed over; committed but placed nowhere; or refused by Redis,
      where waiting holds the members still WAITING there. */
  datatype Outcome = Placed | NotPlaced | Refused(waiting: set<MatchTicket>)

  /** The members of a group that leave the queue. */
  function GoneOf(g: Queue, o: Outcome): set<MatchTicket> {
    match o
    case Placed => Members(g)
    case NotPlaced => {}
    case Refused(waiting) => Members(g) - waiting
  }

  function Gone(groups: seq<Queue>, answer: Queue -> Outcome): set<MatchTicket> {
    if groups == [] then {}
    else
      var g := groups[|groups| - 1];
      Gone(groups[..|groups| - 1], answer) + GoneOf(g, answer(g))
  }

  function RefusedOf(g: Queue, o: Outcome): set<MatchTicket> {
    if o.Refused? then Members(g) - o.waiting else {}
  }

  function AllRefused(groups: seq<Queue>, answer: Queue -> Outcome): set<MatchTicket> {
    if groups == [] then {}
    else
      var g := groups[|groups| - 1];
      AllRefused(groups[..|groups| - 1], answer) + RefusedOf(g, answer(g))
  }

  lemma {:induction false} RefusedAreGone(groups: seq<Queue>, answer: Queue -> Outcome)
    ensures AllRefused(groups, answer) <= Gone(groups, answer) <= AllMembers(groups)
  {
    if groups != [] { RefusedAreGone(groups[..|groups| - 1], answer); }
  }

  /** The tickets of q that are in gone, in order. */
  function Picked(q: Queue, gone: set<MatchTicket>): Queue {
    if q == [] then []
    else Picked(q[..|q| - 1], gone) + (if q[|q| - 1] in gone then [q[|q| - 1]] else [])
  }

  lemma {:induction false} PickedHas(q: Queue, gone: set<MatchTicket>, t: MatchTicket)
    ensures t in Picked(q, gone) <==> t in q && t in gone
  {
    if q != [] {
      PickedHas(q[..|q| - 1], gone, t);
      assert q == q[..|q| - 1] + [q[|q| - 1]];
    }
  }

  lemma {:induction false} PickedDistinct(q: Queue, gone: set<MatchTicket>)
    requires Distinct(q)
    ensures Distinct(Picked(q, gone))
  {
    if q != [] {
      var r := q[..|q| - 1];
      PickedDistinct(r, gone);
      PickedHas(r, gone, q[|q| - 1]);
      assert q[|q| - 1] !in r;
    }
  }

  // ---- Cutting a search short ----

  lemma TakeTwice(p: Queue, q: Queue, n: nat)
    ensures Take(Take(p, n) + q, n) == Take(p + q, n)
  {}

  lemma TakeMore(p: Queue, q: Queue)
    requires |p| == GROUP_SIZE
    ensures Take(p + q, GROUP_SIZE) == p
  {}

  lemma CollectStep(tickets: Queue, j: nat, a: int, out: set<MatchTicket>, group: Queue)
    requires j < |tickets| && tickets[j].aggression == a
    requires |Take(group + Within(tickets[..j], a, a, out), GROUP_SIZE)| < GROUP_SIZE
    ensures Take(group + Within(tickets[..j + 1], a, a, out), GROUP_SIZE)
      == Take(group + Within(tickets[..j], a, a, out), GROUP_SIZE) + (if tickets[j] !in out then [tickets[j]] else [])
  {
    assert tickets[..j + 1][..j] == tickets[..j];
    assert Within(tickets[..j + 1], a, a, out)
        == Within(tickets[..j], a, a, out) + (if tickets[j] !in out then [tickets[j]] else []);
  }

  lemma CollectFull(tickets: Queue, j: nat, a: int, out: set<MatchTicket>, group: Queue)
    requires j <= |tickets| && |Take(group + Within(tickets[..j], a, a, out), GROUP_SIZE)| == GROUP_SIZE
    ensures Take(group + Within(tickets, a, a, out), GROUP_SIZE)
      == Take(group + Within(tickets[..j], a, a, out), GROUP_SIZE)
  {
    assert tickets == tickets[..j] + tickets[j..];
    WithinAppend(tickets[..j], tickets[j..], a, a, out);
    TakeTwice(group + Within(tickets[..j], a, a, out), Within(tickets[j..], a, a, out), GROUP_SIZE);
    assert group + Within(tickets, a, a, out)
        == group + Within(tickets[..j], a, a, out) + Within(tickets[j..], a, a, out);
  }

  lemma BucketFiltered(q: Queue, a: int, out: set<MatchTicket>)
    ensures Within(Within(q, a, a, {}), a, a, out) == Within(q, a, a, out)
  {
    WithinWithin(q, a, a, {}, a, a, out);
    assert {} + out == out;
  }

  lemma {:induction false} NothingOutside(q: Queue, a: int, out: set<MatchTicket>)
    requires forall t <- Members(q) :: t.aggression != a
    ensures Within(q, a, a, out) == []
  {
    if q != [] {
      assert q[|q| - 1] in Members(q);
      NothingOutside(q[..|q| - 1], a, out);
    }
  }

  /** Once four are found the wider rings add nothing. */
  lemma {:induction false} FullStaysFull(q: Queue, out: set<MatchTicket>, p: MatchTicket, a: int, r: nat, d: nat)
    requires r <= d && |Take([p] + Candidates(q, out, a, r), GROUP_SIZE)| == GROUP_SIZE
    ensures Take([p] + Candidates(q, out, a, d), GROUP_SIZE) == Take([p] + Candidates(q, out, a, r), GROUP_SIZE)
  {
    if r < d {
      FullStaysFull(q, out, p, a, r, d - 1);
      TakeFull(p, Candidates(q, out, a, d - 1), Ring(q, out, a, d));
    }
  }

  lemma TakeFull(p: MatchTicket, inner: Queue, more: Queue)
    requires |Take([p] + inner, GROUP_SIZE)| == GROUP_SIZE
    ensures Take([p] + (inner + more), GROUP_SIZE) == Take([p] + inner, GROUP_SIZE)
  {
    assert [p] + (inner + more) == [p] + inner + more;
  }

  lemma RingOpens(q: Queue, out: set<MatchTicket>, a: int, r: nat)
    requires r > 0
    ensures Candidates(q, out, a, r) == Candidates(q, out, a, r - 1) + Ring(q, out, a, r)
  {}

  /** One more ring: above, then below. */
  lemma RingJoined(p: MatchTicket, inner: Queue, up: Queue, down: Queue, group: Queue, above: Queue, grown: Queue)
    requires group == Take([p] + inner, GROUP_SIZE) && above == Take(group + up, GROUP_SIZE)
      && grown == Take(above + down, GROUP_SIZE)
    ensures grown == Take([p] + (inner + (up + down)), GROUP_SIZE)
  {
    TakeThrice([p] + inner, up, down);
    assert [p] + inner + (up + down) == [p] + (inner + (up + down));
  }

  lemma TakeThrice(p: Queue, q: Queue, r: Queue)
    ensures Take(Take(Take(p, GROUP_SIZE) + q, GROUP_SIZE) + r, GROUP_SIZE) == Take(p + (q + r), GROUP_SIZE)
  {
    TakeTwice(p, q, GROUP_SIZE);
    TakeTwice(p + q, r, GROUP_SIZE);
    assert p + q + r == p + (q + r);
  }

  class MatchMaker {
    const maxAggression: nat
    var timeSorted: Queue
    var bucket: seq<Queue>
    var ticketsToAdd: Queue
    var matchedGroups: seq<Queue>
    var flags: seq<bool>
    // History: every ticket given back to the pool, and every key deleted from Redis.
    ghost var released: Queue
    ghost var deletedKeys: seq<string>

    ghost predicate BucketsAgree() reads this {
      |bucket| == maxAggression + 1 && forall a | 0 <= a <= maxAggression :: bucket[a] == Within(timeSorted, a, a, {})
    }

    ghost predicate InRange() reads this {
      forall t <- Members(timeSorted + ticketsToAdd) :: 0 <= t.aggression <= maxAggression
    }

    /** No ticket is queued twice, and none that was given back is queued at all. */
    ghost predicate Shape() reads this {
      BucketsAgree() && InRange() && |flags| == maxAggression + 1
      && Sorted(timeSorted + ticketsToAdd) && Distinct(released + timeSorted + ticketsToAdd)
    }

    ghost predicate Flags(matched: set<MatchTicket>, refused: set<MatchTicket>)
      reads this, timeSorted
    {
      forall t <- Members(timeSorted) :: (t.isMatched <==> t in matched) && (t.isValid <==> t !in refused)
    }

    static ghost predicate FlagsOn(q: Queue, matched: set<MatchTicket>, refused: set<MatchTicket>)
      reads q
    {
      forall i | 0 <= i < |q| :: (q[i].isMatched <==> q[i] in matched) && (q[i].isValid <==> q[i] !in refused)
    }

    ghost predicate Valid() reads this, timeSorted, ticketsToAdd {
      Shape() && Flags({}, {}) && forall t <- Members(ticketsToAdd) :: !t.isMatched && t.isValid
    }

    constructor (maxAggression: nat)
      ensures Valid() && timeSorted == [] && ticketsToAdd == [] && released == []
      ensures this.maxAggression == maxAggression
    {
      this.maxAggression := maxAggression;
      timeSorted, ticketsToAdd, matchedGroups := [], [], [];
      bucket, flags := seq(maxAggression + 1, _ => []), seq(maxAggression + 1, _ => false);
      released, deletedKeys := [], [];
    }

    // ---- Finding groups ----

    /** Adds to the group, up to four, the tickets of a bucket that are free and not the pivot. */
    method Collect(tickets: Queue, a: int, pivot: MatchTicket, group: Queue, ghost matched: set<MatchTicket>)
        returns (grown: Queue)
      requires |group| <= GROUP_SIZE
      requires forall i | 0 <= i < |tickets| ::
        tickets[i].aggression == a && (tickets[i].isMatched <==> tickets[i] in matched)
      ensures grown == Take(group + Within(tickets, a, a, matched + {pivot}), GROUP_SIZE)
    {
      grown := group;
      var j := 0;
      assert grown == Take(group + Within(tickets[..0], a, a, matched + {pivot}), GROUP_SIZE);
      while j < |tickets|
        invariant 0 <= j <= |tickets|
          && grown == Take(group + Within(tickets[..j], a, a, matched + {pivot}), GROUP_SIZE)
      {
        if |grown| == GROUP_SIZE {
          CollectFull(tickets, j, a, matched + {pivot}, group);
          return;
        }
        var candidate := tickets[j];
        CollectStep(tickets, j, a, matched + {pivot}, group);
        if candidate != pivot && !candidate.isMatched { grown := grown + [candidate]; }
        j := j + 1;
      }
      assert tickets[..j] == tickets;
    }

    method CollectFrom(a: int, pivot: MatchTicket, group: Queue, ghost matched: set<MatchTicket>) returns (grown: Queue)
      requires BucketsAgree() && Flags(matched, {}) && 0 <= a <= maxAggression && |group| <= GROUP_SIZE
      ensures grown == Take(group + Within(timeSorted, a, a, matched + {pivot}), GROUP_SIZE)
    {
      forall i | 0 <= i < |bucket[a]|
        ensures bucket[a][i].aggression == a && (bucket[a][i].isMatched <==> bucket[a][i] in matched)
      {
        WithinHas(timeSorted, a, a, {}, bucket[a][i]);
        assert bucket[a][i] in Members(timeSorted);
      }
      BucketFiltered(timeSorted, a, matched + {pivot});
      grown := Collect(bucket[a], a, pivot, group, matched);
    }

    /** A bucket off the end of the index would be empty. */
    method CollectLevel(a: int, pivot: MatchTicket, group: Queue, ghost matched: set<MatchTicket>)
        returns (grown: Queue)
      requires BucketsAgree() && InRange() && Flags(matched, {}) && |group| <= GROUP_SIZE
      ensures |grown| <= GROUP_SIZE && grown == Take(group + Within(timeSorted, a, a, matched + {pivot}), GROUP_SIZE)
    {
      if |group| < GROUP_SIZE && 0 <= a <= maxAggression {
        grown := CollectFrom(a, pivot, group, matched);
      } else {
        grown := group;
        if |group| == GROUP_SIZE {
          TakeMore(group, Within(timeSorted, a, a, matched + {pivot}));
        } else {
          forall t <- Members(timeSorted) ensures t.aggression != a {
            assert t in Members(timeSorted + ticketsToAdd);
          }
          NothingOutside(timeSorted, a, matched + {pivot});
        }
      }
    }

    /** One more ring around what the inner ones hold: the level above, then the one below. */
    method WidenGroup(a: int, range: nat, pivot: MatchTicket, group: Queue, ghost matched: set<MatchTicket>,
        ghost inner: Queue) returns (grown: Queue)
      requires BucketsAgree() && InRange() && Flags(matched, {}) && |group| <= GROUP_SIZE
      requires group == Take([pivot] + inner, GROUP_SIZE)
      ensures |grown| <= GROUP_SIZE
        && grown == Take([pivot] + (inner + Ring(timeSorted, matched + {pivot}, a, range)), GROUP_SIZE)
    {
      var above := CollectLevel(a + range, pivot, group, matched);
      grown := CollectLevel(a - range, pivot, above, matched);
      ghost var up, down :=
          Within(timeSorted, a + range, a + range, matched + {pivot}),
          Within(timeSorted, a - range, a - range, matched + {pivot});
      RingJoined(pivot, inner, up, down, group, above, grown);
    }

    /** The pivot's own level, then one ring at a time until four are found or the allowed difference is reached. */
    method SearchGroup(pivot: MatchTicket, now: int, ghost matched: set<MatchTicket>) returns (group: Queue)
      requires BucketsAgree() && InRange() && Flags(matched, {}) && pivot in timeSorted
      ensures group == Search(timeSorted, matched, pivot, now)
    {
      var a, allowed := pivot.aggression, AllowedDiff(WaitSeconds(pivot, now));
      ghost var out := matched + {pivot};
      assert pivot in Members(timeSorted + ticketsToAdd);
      group := CollectFrom(a, pivot, [pivot], matched);
      var range := 1;
      while range <= allowed && |group| < GROUP_SIZE
        invariant 1 <= range <= allowed + 1
        invariant |group| <= GROUP_SIZE
          && group == Take([pivot] + Candidates(timeSorted, out, a, range - 1), GROUP_SIZE)
      {
        group := WidenGroup(a, range, pivot, group, matched, Candidates(timeSorted, out, a, range - 1));
        RingOpens(timeSorted, out, a, range);
        range := range + 1;
      }
      if |group| == GROUP_SIZE { FullStaysFull(timeSorted, out, pivot, a, range - 1, allowed); }
    }

    method SetMatched(group: Queue)
      modifies Members(group)`isMatched
      ensures forall t <- Members(group) :: t.isMatched
    {
      var i := 0;
      while i < |group|
        invariant 0 <= i <= |group| && forall j | 0 <= j < i :: group[j].isMatched
      {
        group[i].isMatched := true;
        i := i + 1;
      }
    }

    /** Takes the pivot's group if it is large enough for the pivot's wait. */
    method TryPivot(pivot: MatchTicket, now: int, ghost matched: set<MatchTicket>) returns (took: bool)
      requires BucketsAgree() && InRange() && Flags(matched, {}) && Distinct(timeSorted) && pivot in timeSorted
        && pivot !in matched
      modifies this`matchedGroups, Members(timeSorted)`isMatched
      ensures took == Succeeds(timeSorted, matched, pivot, now)
      ensures matchedGroups == if took then old(matchedGroups) + [Search(timeSorted, matched, pivot, now)]
        else old(matchedGroups)
      ensures Flags(if took then matched + Members(Search(timeSorted, matched, pivot, now)) else matched, {})
    {
      var group := SearchGroup(pivot, now, matched);
      took := |group| >= TargetMin(WaitSeconds(pivot, now));
      if took {
        SearchShape(timeSorted, matched, pivot, now);
        SetMatched(group);
        matchedGroups := matchedGroups + [group];
      }
    }

    /** One turn of the pivot loop: skipped, taken, or failed and remembered. */
    method ConsiderPivot(i: nat, clock: Clock, ghost matched: set<MatchTicket>, ghost failed: set<int>)
      returns (ghost matched': set<MatchTicket>, ghost failed': set<int>)
      requires i < |timeSorted| && BucketsAgree() && InRange() && |flags| == maxAggression + 1 && Flags(matched, {})
      requires Distinct(timeSorted) && Progress(timeSorted, i, matched, matchedGroups, flags, failed, clock)
      modifies this`matchedGroups, this`flags, Members(timeSorted)`isMatched
      ensures |flags| == maxAggression + 1 && Flags(matched', {})
      ensures Progress(timeSorted, i + 1, matched', matchedGroups, flags, failed', clock)
    {
      matched', failed' := matched, failed;
      var pivot := timeSorted[i];
      assert pivot in Members(timeSorted) && pivot in Members(timeSorted + ticketsToAdd);
      var a := pivot.aggression;
      if pivot.isMatched || flags[a] { return; }
      ghost var before := matchedGroups;
      var took := TryPivot(pivot, clock(i), matched);
      if took {
        PivotTook(timeSorted, i, matched, before, flags, failed, clock);
        matched' := matched + Members(Search(timeSorted, matched, pivot, clock(i)));
      } else {
        flags := flags[a := true];
        failed' := failed + {a};
      }
    }

    /** The pivot loop, with its flags and a clock reading for each pivot, finds the specified groups. */
    method FindMatchGroup(clock: Clock)
      requires Valid()
      modifies this`matchedGroups, this`flags, Members(timeSorted)`isMatched
      ensures Shape() && matchedGroups == Found(timeSorted, clock)
      ensures Flags(AllMembers(matchedGroups), {})
    {
      matchedGroups := [];
      flags := seq(maxAggression + 1, _ => false);
      ghost var matched: set<MatchTicket>, failed: set<int> := {}, {};
      QueueDistinct(released, timeSorted, ticketsToAdd);
      var i := 0;
      SearchBegins(timeSorted, clock, flags);
      while i < |timeSorted|
        invariant 0 <= i <= |timeSorted| && BucketsAgree() && InRange() && |flags| == maxAggression + 1
        invariant Flags(matched, {})
        invariant Progress(timeSorted, i, matched, matchedGroups, flags, failed, clock)
      {
        matched, failed := ConsiderPivot(i, clock, matched, failed);
        i := i + 1;
      }
      assert matchedGroups + [] == matchedGroups;
    }

    // ---- Arrivals ----

    /** A ticket fresh from the pool, stamped no earlier than those before it; it may have been there before. */
    method AddSingleMatchTicket(t: MatchTicket)
      requires Valid() && !t.isMatched && t.isValid && 0 <= t.aggression <= maxAggression
      requires t !in timeSorted + ticketsToAdd
      requires forall u <- Members(timeSorted + ticketsToAdd) :: u.startTime <= t.startTime
      modifies this`ticketsToAdd, this`released
      ensures Valid() && ticketsToAdd == old(ticketsToAdd) + [t]
      ensures released == Picked(old(released), Members(old(released)) - {t})
    {
      TakenBack(released, timeSorted, ticketsToAdd, t);
      released := Picked(released, Members(released) - {t});
      ArrivalFits(released, timeSorted, ticketsToAdd, t);
      ticketsToAdd := ticketsToAdd + [t];
    }

    method FileInBuckets(arrivals: Queue)
      requires BucketsAgree() && forall i | 0 <= i < |arrivals| :: 0 <= arrivals[i].aggression <= maxAggression
      modifies this`bucket
      ensures |bucket| == maxAggression + 1
      ensures forall a | 0 <= a <= maxAggression :: bucket[a] == Within(timeSorted + arrivals, a, a, {})
    {
      var k := 0;
      while k < |arrivals|
        invariant 0 <= k <= |arrivals| && |bucket| == maxAggression + 1
        invariant forall a | 0 <= a <= maxAggression ::
          bucket[a] == Within(timeSorted, a, a, {}) + Within(arrivals[..k], a, a, {})
      {
        var b := arrivals[k].aggression;
        assert arrivals[..k + 1][..k] == arrivals[..k];
        bucket := bucket[b := bucket[b] + [arrivals[k]]];
        k := k + 1;
      }
      assert arrivals[..k] == arrivals;
      forall a | 0 <= a <= maxAggression ensures bucket[a] == Within(timeSorted + arrivals, a, a, {}) {
        WithinAppend(timeSorted, arrivals, a, a, {});
      }
    }

    method AddNewMatchTickets()
      requires Valid()
      modifies this`timeSorted, this`bucket, this`ticketsToAdd
      ensures Valid() && timeSorted == old(timeSorted) + old(ticketsToAdd) && ticketsToAdd == []
    {
      if ticketsToAdd == [] { return; }
      QueueSorted(timeSorted, ticketsToAdd);
      SortInOrder(ticketsToAdd);
      MergeInOrder(timeSorted, ticketsToAdd);
      PartInRange(timeSorted, ticketsToAdd, maxAggression);
      ticketsToAdd := StableSort(ticketsToAdd);
      FileInBuckets(ticketsToAdd);
      timeSorted := Merge(timeSorted, ticketsToAdd);
      assert old(released + timeSorted + ticketsToAdd) == released + timeSorted + [];
      assert timeSorted + [] == timeSorted;
      ticketsToAdd := [];
    }

    // ---- Committing ----

    /** A group handed over stays matched; one placed nowhere goes back to waiting. */
    method CommitGroup(group: Queue, answer: Queue -> Outcome)
      modifies Members(group)
      requires Distinct(group) && forall t <- Members(group) :: t.isMatched && t.isValid
      ensures forall t <- Members(group) ::
        (t.isMatched <==> t in GoneOf(group, answer(group))) && (t.isValid <==> t !in RefusedOf(group, answer(group)))
    {
      var o := answer(group);
      if o.Placed? { return; }
      var i := 0;
      while i < |group|
        invariant 0 <= i <= |group|
        invariant forall j | 0 <= j < i ::
          (group[j].isMatched <==> group[j] in GoneOf(group, o))
          && (group[j].isValid <==> group[j] !in RefusedOf(group, o))
        invariant forall j | i <= j < |group| :: group[j].isMatched && group[j].isValid
      {
        if o.NotPlaced? || group[i] in o.waiting {
          group[i].isMatched := false;
        } else {
          group[i].isValid := false;
        }
        i := i + 1;
      }
    }

    /** The answer for one group, in the marks of the whole queue. */
    method CommitNext(group: Queue, answer: Queue -> Outcome, ghost matched: set<MatchTicket>,
        ghost refused: set<MatchTicket>)
      requires Flags(matched, refused) && Distinct(group)
      requires Members(group) <= Members(timeSorted) && Members(group) <= matched && Members(group) !! refused
      modifies Members(group)
      ensures Flags(matched - Members(group) + GoneOf(group, answer(group)), refused + RefusedOf(group, answer(group)))
    {
      CommitGroup(group, answer);
    }

    method CommitAt(k: nat, answer: Queue -> Outcome, ghost clock: Clock)
      requires k < |matchedGroups| && GroupsOk(timeSorted, {}, matchedGroups, clock)
      requires Flags(Settled(matchedGroups, k, answer), AllRefused(matchedGroups[..k], answer))
      modifies Members(timeSorted)
      ensures Flags(Settled(matchedGroups, k + 1, answer), AllRefused(matchedGroups[..k + 1], answer))
    {
      var group := matchedGroups[k];
      GroupNext(timeSorted, matchedGroups, k, clock);
      SettledNext(matchedGroups, k, answer);
      CommitNext(group, answer, Settled(matchedGroups, k, answer), AllRefused(matchedGroups[..k], answer));
    }

    method StartMatchMakeInternal(answer: Queue -> Outcome, ghost clock: Clock)
      requires Shape() && matchedGroups == Found(timeSorted, clock) && Flags(AllMembers(matchedGroups), {})
      modifies Members(timeSorted)
      ensures Flags(Gone(matchedGroups, answer), AllRefused(matchedGroups, answer))
    {
      QueueDistinct(released, timeSorted, ticketsToAdd);
      RememberingGroups(timeSorted, 0, {}, {}, clock);
      CommitAll(answer, clock);
    }

    method CommitAll(answer: Queue -> Outcome, ghost clock: Clock)
      requires GroupsOk(timeSorted, {}, matchedGroups, clock) && Flags(AllMembers(matchedGroups), {})
      modifies Members(timeSorted)
      ensures Flags(Gone(matchedGroups, answer), AllRefused(matchedGroups, answer))
    {
      var k := 0;
      SettledNone(matchedGroups, answer);
      while k < |matchedGroups|
        invariant 0 <= k <= |matchedGroups|
        invariant Flags(Settled(matchedGroups, k, answer), AllRefused(matchedGroups[..k], answer))
      {
        CommitAt(k, answer, clock);
        k := k + 1;
      }
      SettledAll(matchedGroups, answer);
    }

    // ---- Clearing out ----

    /** std::remove_if over the tickets of one vector. */
    method RemoveGone(tickets: Queue, ghost gone: set<MatchTicket>, ghost refused: set<MatchTicket>)
        returns (kept: Queue)
      requires refused <= gone
      requires forall i | 0 <= i < |tickets| :: 0 <= tickets[i].aggression <= maxAggression
      requires FlagsOn(tickets, gone, refused)
      ensures kept == Within(tickets, 0, maxAggression, gone)
    {
      kept := [];
      var j := 0;
      while j < |tickets|
        invariant 0 <= j <= |tickets| && kept == Within(tickets[..j], 0, maxAggression, gone)
      {
        assert tickets[..j + 1][..j] == tickets[..j];
        if !(tickets[j].isMatched || !tickets[j].isValid) { kept := kept + [tickets[j]]; }
        j := j + 1;
      }
      assert tickets[..j] == tickets;
    }

    /** A refused ticket is still marked matched, so it is released like the others and its key is never deleted. */
    method CollectLeaving(ghost gone: set<MatchTicket>, ghost refused: set<MatchTicket>)
        returns (toRelease: Queue, toDelete: Queue)
      requires Flags(gone, refused) && refused <= gone
      ensures toRelease == Picked(timeSorted, gone) && toDelete == []
    {
      toRelease, toDelete := [], [];
      var j := 0;
      while j < |timeSorted|
        invariant 0 <= j <= |timeSorted| && toRelease == Picked(timeSorted[..j], gone) && toDelete == []
      {
        assert timeSorted[..j + 1][..j] == timeSorted[..j];
        var t := timeSorted[j];
        assert t in Members(timeSorted);
        if t.isMatched { toRelease := toRelease + [t]; } else if !t.isValid { toDelete := toDelete + [t]; }
        j := j + 1;
      }
      assert timeSorted[..j] == timeSorted;
    }

    lemma FlagsAre(matched: set<MatchTicket>, refused: set<MatchTicket>)
      requires Flags(matched, refused)
      ensures FlagsOn(timeSorted, matched, refused)
    {
      forall i | 0 <= i < |timeSorted| ensures timeSorted[i] in Members(timeSorted) {}
    }

    method DeleteKeys(tickets: Queue)
      modifies this`deletedKeys
      ensures |deletedKeys| == |old(deletedKeys)| + |tickets| && old(deletedKeys) <= deletedKeys
      ensures forall i | 0 <= i < |tickets| :: deletedKeys[|old(deletedKeys)| + i] == tickets[i].ticketId
    {
      var k := 0;
      while k < |tickets|
        invariant 0 <= k <= |tickets| && |deletedKeys| == |old(deletedKeys)| + k && old(deletedKeys) <= deletedKeys
        invariant forall i | 0 <= i < k :: deletedKeys[|old(deletedKeys)| + i] == tickets[i].ticketId
      {
        deletedKeys := deletedKeys + [tickets[k].ticketId];
        k := k + 1;
      }
    }

    method ClearBuckets(ghost q: Queue, ghost gone: set<MatchTicket>, ghost refused: set<MatchTicket>)
      requires |bucket| == maxAggression + 1 && refused <= gone && timeSorted == Within(q, 0, maxAggression, gone)
      requires forall a | 0 <= a <= maxAggression :: bucket[a] == Within(q, a, a, {})
      requires FlagsOn(q, gone, refused)
      modifies this`bucket
      ensures BucketsAgree()
    {
      var a := 0;
      while a <= maxAggression
        invariant 0 <= a <= maxAggression + 1 && |bucket| == maxAggression + 1
        invariant forall b | 0 <= b < a :: bucket[b] == Within(timeSorted, b, b, {})
        invariant forall b | a <= b <= maxAggression :: bucket[b] == Within(q, b, b, {})
      {
        var kept := ClearBucket(bucket[a], a, q, gone, refused);
        bucket := bucket[a := kept];
        a := a + 1;
      }
    }

    method ClearBucket(tickets: Queue, a: int, ghost q: Queue, ghost gone: set<MatchTicket>,
        ghost refused: set<MatchTicket>) returns (kept: Queue)
      requires 0 <= a <= maxAggression && refused <= gone && tickets == Within(q, a, a, {})
      requires FlagsOn(q, gone, refused)
      ensures kept == Within(Within(q, 0, maxAggression, gone), a, a, {})
    {
      forall i | 0 <= i < |tickets|
        ensures tickets[i].aggression == a && tickets[i] in q
      {
        WithinHas(q, a, a, {}, tickets[i]);
      }
      kept := RemoveGone(tickets, gone, refused);
      BucketCleared(q, a, maxAggression, gone);
    }

    method ReleaseAndDeleteTickets(ghost gone: set<MatchTicket>, ghost refused: set<MatchTicket>)
      requires Shape() && ticketsToAdd == [] && Flags(gone, refused) && refused <= gone
      modifies this`timeSorted, this`bucket, this`released, this`deletedKeys
      ensures Valid() && timeSorted == Within(old(timeSorted), 0, maxAggression, gone)
      ensures released == old(released) + Picked(old(timeSorted), gone) && deletedKeys == old(deletedKeys)
    {
      ghost var q := timeSorted;
      PartInRange(timeSorted, ticketsToAdd, maxAggression);
      FlagsAre(gone, refused);
      var toRelease, toDelete := CollectLeaving(gone, refused);
      ClearQueue(gone, refused);
      released := released + toRelease;
      DeleteKeys(toDelete);
      NowValid(old(released), q, gone, refused);
    }

    method ClearQueue(ghost gone: set<MatchTicket>, ghost refused: set<MatchTicket>)
      requires BucketsAgree() && refused <= gone && FlagsOn(timeSorted, gone, refused)
      requires forall i | 0 <= i < |timeSorted| :: 0 <= timeSorted[i].aggression <= maxAggression
      modifies this`timeSorted, this`bucket
      ensures BucketsAgree() && timeSorted == Within(old(timeSorted), 0, maxAggression, gone)
    {
      ghost var q := timeSorted;
      timeSorted := RemoveGone(timeSorted, gone, refused);
      ClearBuckets(q, gone, refused);
    }

    /** What is left is in order again, and what has gone is not queued. */
    lemma NowValid(r: Queue, q: Queue, gone: set<MatchTicket>, refused: set<MatchTicket>)
      requires BucketsAgree() && ticketsToAdd == [] && |flags| == maxAggression + 1
      requires timeSorted == Within(q, 0, maxAggression, gone) && released == r + Picked(q, gone)
      requires Distinct(r + q + []) && Sorted(q + []) && FlagsOn(q, gone, refused) && refused <= gone
      ensures Valid()
    {
      ClearedOut(r, q, maxAggression, gone);
      assert timeSorted + ticketsToAdd == timeSorted && released + timeSorted + ticketsToAdd == released + timeSorted;
      forall t <- Members(timeSorted) ensures !t.isMatched && t.isValid { assert t in q; }
    }

    /** The second half of a cycle. */
    method CommitAndClear(ghost clock: Clock, answer: Queue -> Outcome)
      requires Shape() && ticketsToAdd == [] && matchedGroups == Found(timeSorted, clock)
      requires Flags(AllMembers(matchedGroups), {})
      modifies this`timeSorted, this`bucket, this`released, this`deletedKeys, Members(timeSorted)
      ensures Valid() && timeSorted == Within(old(timeSorted), 0, maxAggression, Gone(matchedGroups, answer))
      ensures released == old(released) + Picked(old(timeSorted), Gone(matchedGroups, answer))
        && deletedKeys == old(deletedKeys)
    {
      StartMatchMakeInternal(answer, clock);
      RefusedAreGone(matchedGroups, answer);
      ReleaseAndDeleteTickets(Gone(matchedGroups, answer), AllRefused(matchedGroups, answer));
    }

    /** One cycle: whoever was matched and not turned back leaves, once; everybody else keeps their place. */
    method StartMatchMake(clock: Clock, answer: Queue -> Outcome)
      requires Valid()
      modifies this, Members(timeSorted), Members(ticketsToAdd)
      ensures Valid() && ticketsToAdd == []
      ensures var q := old(timeSorted) + old(ticketsToAdd);
        && matchedGroups == Found(q, clock)
        && timeSorted == Within(q, 0, maxAggression, Gone(matchedGroups, answer))
        && released == old(released) + Picked(q, Gone(matchedGroups, answer)) && deletedKeys == old(deletedKeys)
    {
      AddNewMatchTickets();
      assert Members(timeSorted) == old(Members(timeSorted)) + old(Members(ticketsToAdd));
      FindMatchGroup(clock);
      CommitAndClear(clock, answer);
    }
  }

  lemma PartInRange(p: Queue, q: Queue, max: int)
    requires forall t <- Members(p + q) :: 0 <= t.aggression <= max
    ensures forall i | 0 <= i < |p| :: 0 <= p[i].aggression <= max
    ensures forall i | 0 <= i < |q| :: 0 <= q[i].aggression <= max
  {
    forall i | 0 <= i < |p| ensures 0 <= p[i].aggression <= max { assert p[i] in Members(p + q); }
    forall i | 0 <= i < |q| ensures 0 <= q[i].aggression <= max { assert q[i] in Members(p + q); }
  }

  // ---- Committing and clearing out ----

  lemma GroupNext(q: Queue, groups: seq<Queue>, k: nat, clock: Clock)
    requires k < |groups| && GroupsOk(q, {}, groups, clock)
    ensures Distinct(groups[k]) && Members(groups[k]) <= Members(q) && Members(groups[k]) !! AllMembers(groups[..k])
  {
    assert GroupOk(q, {} + AllMembers(groups[..k]), groups[k], clock);
  }

  /** The tickets marked matched once the first k groups have their answer. */
  function Settled(groups: seq<Queue>, k: nat, answer: Queue -> Outcome): set<MatchTicket>
    requires k <= |groups|
  {
    AllMembers(groups) - AllMembers(groups[..k]) + Gone(groups[..k], answer)
  }

  lemma SettledNone(groups: seq<Queue>, answer: Queue -> Outcome)
    ensures Settled(groups, 0, answer) == AllMembers(groups) && AllRefused(groups[..0], answer) == {}
  {}

  lemma SettledNext(groups: seq<Queue>, k: nat, answer: Queue -> Outcome)
    requires k < |groups| && Members(groups[k]) !! AllMembers(groups[..k])
    ensures var g, o := groups[k], answer(groups[k]);
      && Members(g) <= Settled(groups, k, answer) && Members(g) !! AllRefused(groups[..k], answer)
      && Settled(groups, k + 1, answer) == Settled(groups, k, answer) - Members(g) + GoneOf(g, o)
      && AllRefused(groups[..k + 1], answer) == AllRefused(groups[..k], answer) + RefusedOf(g, o)
  {
    assert groups[..k + 1][..k] == groups[..k];
    AllMembersHas(groups, k);
    RefusedAreGone(groups[..k], answer);
  }

  lemma SettledAll(groups: seq<Queue>, answer: Queue -> Outcome)
    ensures Settled(groups, |groups|, answer) == Gone(groups, answer) && groups[..|groups|] == groups
  {
    assert groups[..|groups|] == groups;
    RefusedAreGone(groups, answer);
  }

  lemma BucketCleared(q: Queue, a: int, max: nat, gone: set<MatchTicket>)
    requires 0 <= a <= max
    ensures Within(Within(q, a, a, {}), 0, max, gone) == Within(Within(q, 0, max, gone), a, a, {})
  {
    var w := Within(q, a, a, {});
    forall i | 0 <= i < |w| ensures w[i].aggression == a { WithinHas(q, a, a, {}, w[i]); }
    WithinOneLevel(w, a, 0, max, gone);
    WithinWithin(q, a, a, {}, a, a, gone);
    WithinWithin(q, 0, max, gone, a, a, {});
    assert {} + gone == gone + {};
  }

  lemma {:induction false} WithinOneLevel(q: Queue, a: int, lo: int, hi: int, out: set<MatchTicket>)
    requires lo <= a <= hi && forall i | 0 <= i < |q| :: q[i].aggression == a
    ensures Within(q, lo, hi, out) == Within(q, a, a, out)
  {
    if q != [] { WithinOneLevel(q[..|q| - 1], a, lo, hi, out); }
  }

  lemma ClearedOut(r: Queue, q: Queue, max: nat, gone: set<MatchTicket>)
    requires Distinct(r + q + []) && Sorted(q + [])
    ensures var kept := Within(q, 0, max, gone);
      && Distinct(r + Picked(q, gone) + kept) && Sorted(kept)
      && (forall t <- Members(kept) :: t in Members(q) && t !in gone && 0 <= t.aggression <= max)
  {
    var kept, picked := Within(q, 0, max, gone), Picked(q, gone);
    QueueDistinct(r, q, []);
    QueueSorted(q, []);
    WithinSorted(q, 0, max, gone);
    KeptAre(q, max, gone);
    SplitDistinct(q, max, gone);
    FrontDistinct(r, q);
    forall i | 0 <= i < |r| ensures r[i] !in picked + kept {
      PickedHas(q, gone, r[i]);
      WithinHas(q, 0, max, gone, r[i]);
      NotQueued(r, q, i);
    }
    DistinctConcat(r, picked + kept);
    assert r + picked + kept == r + (picked + kept);
  }

  lemma KeptAre(q: Queue, max: nat, gone: set<MatchTicket>)
    ensures forall t <- Members(Within(q, 0, max, gone)) :: t in Members(q) && t !in gone && 0 <= t.aggression <= max
  {
    forall t | t in Members(Within(q, 0, max, gone)) ensures t in q && t !in gone && 0 <= t.aggression <= max {
      WithinHas(q, 0, max, gone, t);
    }
  }

  lemma SplitDistinct(q: Queue, max: nat, gone: set<MatchTicket>)
    requires Distinct(q)
    ensures Distinct(Picked(q, gone) + Within(q, 0, max, gone))
  {
    var kept, picked := Within(q, 0, max, gone), Picked(q, gone);
    WithinDistinct(q, 0, max, gone);
    PickedDistinct(q, gone);
    forall i | 0 <= i < |picked| ensures picked[i] !in kept {
      PickedHas(q, gone, picked[i]);
      WithinHas(q, 0, max, gone, picked[i]);
    }
    DistinctConcat(picked, kept);
  }

  lemma FrontDistinct(r: Queue, q: Queue)
    requires Distinct(r + q + [])
    ensures Distinct(r)
  {
    forall i, j | 0 <= i < j < |r| ensures r[i] != r[j] { assert (r + q + [])[i] == r[i] && (r + q + [])[j] == r[j]; }
  }

  lemma NotQueued(r: Queue, q: Queue, i: nat)
    requires Distinct(r + q + []) && i < |r|
    ensures r[i] !in q
  {
    forall j | 0 <= j < |q| ensures q[j] != r[i] {
      assert (r + q + [])[i] == r[i] && (r + q + [])[|r| + j] == q[j];
    }
  }

  // ---- The pivot loop ----

  /** The groups so far, with those the search finds from here on, are its groups; the flags are its memory. */
  ghost predicate Progress(q: Queue, i: nat, matched: set<MatchTicket>, groups: seq<Queue>, flags: seq<bool>,
      failed: set<int>, clock: Clock)
  {
    && matched == AllMembers(groups) && groups + Remembering(q, i, matched, failed, clock) == Found(q, clock)
    && forall a | 0 <= a < |flags| :: flags[a] <==> a in failed
  }

  lemma SearchBegins(q: Queue, clock: Clock, flags: seq<bool>)
    requires forall a | 0 <= a < |flags| :: !flags[a]
    ensures Progress(q, 0, {}, [], flags, {}, clock)
  {
    assert [] + Found(q, clock) == Found(q, clock);
  }

  lemma PivotTook(q: Queue, i: nat, matched: set<MatchTicket>, groups: seq<Queue>, flags: seq<bool>, failed: set<int>,
      clock: Clock)
    requires Progress(q, i, matched, groups, flags, failed, clock) && i < |q|
    requires q[i] !in matched && q[i].aggression !in failed && Succeeds(q, matched, q[i], clock(i))
    ensures var g := Search(q, matched, q[i], clock(i));
      Progress(q, i + 1, matched + Members(g), groups + [g], flags, failed, clock)
  {
    var g := Search(q, matched, q[i], clock(i));
    GroupAdded(groups, g, Remembering(q, i + 1, matched + Members(g), failed, clock));
  }

  lemma ArrivalFits(r: Queue, q: Queue, p: Queue, t: MatchTicket)
    requires Distinct(r + q + p) && Sorted(q + p) && t !in r + q + p && forall u <- Members(q + p) ::
      u.startTime <= t.startTime
    ensures Distinct(r + q + (p + [t])) && Sorted(q + (p + [t])) && Members(q + (p + [t])) == Members(q + p) + {t}
  {
    assert r + q + (p + [t]) == r + q + p + [t] && q + (p + [t]) == q + p + [t];
    forall i | 0 <= i < |q + p| ensures (q + p)[i].startTime <= t.startTime { assert (q + p)[i] in Members(q + p); }
    forall i | 0 <= i < |r + q + p| ensures (r + q + p)[i] != t { assert (r + q + p)[i] in r + q + p; }
  }

  /** The pool hands out a ticket it had been given back. */
  lemma TakenBack(r: Queue, q: Queue, p: Queue, t: MatchTicket)
    requires Distinct(r + q + p) && t !in q + p
    ensures var r' := Picked(r, Members(r) - {t}); Distinct(r' + q + p) && t !in r' + q + p
  {
    var r' := Picked(r, Members(r) - {t});
    assert r + q + p == r + (q + p);
    PartsDistinct(r, q + p);
    PickedDistinct(r, Members(r) - {t});
    PickedHas(r, Members(r) - {t}, t);
    forall i | 0 <= i < |r'| ensures r'[i] !in q + p {
      PickedHas(r, Members(r) - {t}, r'[i]);
      var j :| 0 <= j < |r| && r[j] == r'[i];
    }
    DistinctConcat(r', q + p);
    assert r' + q + p == r' + (q + p);
  }

  lemma PartsDistinct(p: Queue, q: Queue)
    requires Distinct(p + q)
    ensures Distinct(p) && Distinct(q) && forall i | 0 <= i < |p| :: p[i] !in q
  {
    forall i, j | 0 <= i < j < |p| ensures p[i] != p[j] { assert (p + q)[i] == p[i] && (p + q)[j] == p[j]; }
    forall i, j | 0 <= i < j < |q| ensures q[i] != q[j] { assert (p + q)[|p| + i] == q[i] && (p + q)[|p| + j] == q[j]; }
    forall i, j | 0 <= i < |p| && 0 <= j < |q|
      ensures p[i] != q[j]
    {
      assert (p + q)[i] == p[i] && (p + q)[|p| + j] == q[j];
    }
  }

  lemma QueueDistinct(p: Queue, q: Queue, r: Queue)
    requires Distinct(p + q + r)
    ensures Distinct(q)
  {
    forall i, j | 0 <= i < j < |q| ensures q[i] != q[j] {
      assert (p + q + r)[|p| + i] == q[i] && (p + q + r)[|p| + j] == q[j];
    }
  }

  lemma QueueSorted(q: Queue, r: Queue)
    requires Sorted(q + r)
    ensures Sorted(q) && Sorted(r)
  {
    forall i, j | 0 <= i < j < |q| ensures q[i].startTime <= q[j].startTime {
      assert (q + r)[i] == q[i] && (q + r)[j] == q[j];
    }
    forall i, j | 0 <= i < j < |r| ensures r[i].startTime <= r[j].startTime {
      assert (q + r)[|q| + i] == r[i] && (q + r)[|q| + j] == r[j];
    }
  }

  lemma GroupAdded(groups: seq<Queue>, g: Queue, rest: seq<Queue>)
    ensures groups + ([g] + rest) == groups + [g] + rest
    ensures AllMembers(groups + [g]) == AllMembers(groups) + Members(g)
  {
    assert (groups + [g])[..|groups + [g]| - 1] == groups;
  }

  // ---- Who leaves the queue ----

  /** The ticket's group was placed, or refused with the ticket no longer waiting. */
  ghost predicate LeavesWith(g: Queue, o: Outcome, t: MatchTicket) {
    t in g && (o.Placed? || (o.Refused? && t !in o.waiting))
  }

  lemma {:induction false} GoneIff(groups: seq<Queue>, answer: Queue -> Outcome, t: MatchTicket)
    ensures t in Gone(groups, answer) <==> exists k :: 0 <= k < |groups| && LeavesWith(groups[k], answer(groups[k]), t)
  {
    if groups != [] {
      var n := |groups| - 1;
      GoneIff(groups[..n], answer, t);
      if LeavesWith(groups[n], answer(groups[n]), t) { assert t in GoneOf(groups[n], answer(groups[n])); }
      if k :| 0 <= k < n && LeavesWith(groups[..n][k], answer(groups[..n][k]), t) {
        assert LeavesWith(groups[k], answer(groups[k]), t);
      }
      if k :| 0 <= k < |groups| && LeavesWith(groups[k], answer(groups[k]), t) {
        assert k < n ==> groups[..n][k] == groups[k];
      }
    }
  }

  // ---- Runs of cycles ----

  /** One cycle's inputs: who arrived since the last, the clock's readings, and how each group fares. */
  datatype Cycle = Cycle(arrivals: Queue, clock: Clock, answer: Queue -> Outcome)

  function NextQueue(q: Queue, c: Cycle, max: nat): Queue {
    Within(q + c.arrivals, 0, max, Gone(Found(q + c.arrivals, c.clock), c.answer))
  }

  function QueueAfter(q: Queue, cycles: seq<Cycle>, max: nat): Queue {
    if cycles == [] then q else NextQueue(QueueAfter(q, cycles[..|cycles| - 1], max), cycles[|cycles| - 1], max)
  }

  /** After a cycle exactly those are queued who were, or have arrived, and did not leave with a group of the cycle:
      one that was placed, or one refused for them. */
  lemma QueuedIff(q: Queue, c: Cycle, max: nat, t: MatchTicket)
    ensures var groups := Found(q + c.arrivals, c.clock);
      t in NextQueue(q, c, max) <==>
        (t in q || t in c.arrivals) && 0 <= t.aggression <= max
        && !exists k :: 0 <= k < |groups| && LeavesWith(groups[k], c.answer(groups[k]), t)
  {
    var groups := Found(q + c.arrivals, c.clock);
    GoneIff(groups, c.answer, t);
    WithinHas(q + c.arrivals, 0, max, Gone(groups, c.answer), t);
  }

  ghost predicate Before(q: Queue, t: MatchTicket, u: MatchTicket) {
    exists i, j | 0 <= i < j < |q| :: q[i] == t && q[j] == u
  }

  lemma {:induction false} WithinKeepsOrder(q: Queue, lo: int, hi: int, out: set<MatchTicket>, t: MatchTicket,
      u: MatchTicket)
    requires Before(q, t, u) && t in Within(q, lo, hi, out) && u in Within(q, lo, hi, out) && Distinct(q)
    ensures Before(Within(q, lo, hi, out), t, u)
  {
    var r, last := q[..|q| - 1], q[|q| - 1];
    var w := Within(r, lo, hi, out);
    var i, j :| 0 <= i < j < |q| && q[i] == t && q[j] == u;
    WithinHas(q, lo, hi, out, t);
    WithinHas(q, lo, hi, out, u);
    WithinHas(r, lo, hi, out, t);
    assert r[i] == t && t in w;
    var k :| 0 <= k < |w| && w[k] == t;
    if j == |q| - 1 {
      assert Within(q, lo, hi, out)[k] == t && Within(q, lo, hi, out)[|w|] == u;
    } else {
      assert r[j] == u;
      WithinHas(r, lo, hi, out, u);
      assert Before(r, t, u);
      WithinKeepsOrder(r, lo, hi, out, t, u);
      var a, b :| 0 <= a < b < |w| && w[a] == t && w[b] == u;
      assert Within(q, lo, hi, out)[a] == t && Within(q, lo, hi, out)[b] == u;
    }
  }

  /** Every ticket that arrives along the run is new. */
  ghost predicate NewArrivals(q: Queue, cycles: seq<Cycle>, max: nat) {
    cycles == [] ||
    (NewArrivals(q, cycles[..|cycles| - 1], max)
        && Distinct(QueueAfter(q, cycles[..|cycles| - 1], max) + cycles[|cycles| - 1].arrivals))
  }

  /** Whatever the answers, two tickets still queued after any number of cycles are in the order they came. */
  lemma {:induction false} SurvivorsKeepTheirPlace(q: Queue, cycles: seq<Cycle>, max: nat, t: MatchTicket,
      u: MatchTicket)
    requires NewArrivals(q, cycles, max) && Before(q, t, u)
    requires forall k | 0 <= k <= |cycles| ::
      t in QueueAfter(q, cycles[..k], max) && u in QueueAfter(q, cycles[..k], max)
    ensures Before(QueueAfter(q, cycles, max), t, u)
  {
    if cycles != [] {
      var n, c := |cycles| - 1, cycles[|cycles| - 1];
      var p := QueueAfter(q, cycles[..n], max);
      forall k | 0 <= k <= n
        ensures t in QueueAfter(q, cycles[..n][..k], max) && u in QueueAfter(q, cycles[..n][..k], max)
      {
        assert cycles[..n][..k] == cycles[..k];
      }
      SurvivorsKeepTheirPlace(q, cycles[..n], max, t, u);
      var i, j :| 0 <= i < j < |p| && p[i] == t && p[j] == u;
      assert (p + c.arrivals)[i] == t && (p + c.arrivals)[j] == u;
      assert cycles[..n + 1] == cycles;
      WithinKeepsOrder(p + c.arrivals, 0, max, Gone(Found(p + c.arrivals, c.clock), c.answer), t, u);
    }
  }
}
