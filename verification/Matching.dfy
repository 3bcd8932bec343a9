/** What the matchmaker computes: the groups of a greedy search that remembers failures and reads the clock
    at each pivot, how they compare with a search without memory, and what becomes of those it passes over. */
module Matching {

  const GROUP_SIZE := 4
  const TICKS_PER_SECOND := 1_000_000_000

  class MatchTicket {
    const ticketId: string
    const aggression: int
    const startTime: int
    var isMatched: bool
    var isValid: bool

    constructor (ticketId: string, aggression: int, startTime: int)
      ensures this.ticketId == ticketId && this.aggression == aggression && this.startTime == startTime
      ensures !isMatched && isValid
    {
      this.ticketId, this.aggression, this.startTime := ticketId, aggression, startTime;
      isMatched, isValid := false, true;
    }
  }

  type Queue = seq<MatchTicket>

  /** Whole seconds waited, truncated toward zero. */
  function WaitSeconds(t: MatchTicket, now: int): int {
    var d := now - t.startTime;
    if d >= 0 then d / TICKS_PER_SECOND else -((-d) / TICKS_PER_SECOND)
  }

  function AllowedDiff(wait: int): nat { if wait >= 40 then 1 else 0 }

  function TargetMin(wait: int): nat {
    if wait >= 60 then 1 else if wait >= 40 then 2 else if wait >= 20 then 3 else 4
  }

  ghost predicate Distinct(q: Queue) { forall i, j | 0 <= i < j < |q| :: q[i] != q[j] }

  ghost predicate Sorted(q: Queue) { forall i, j | 0 <= i < j < |q| :: q[i].startTime <= q[j].startTime }

  /** The tickets of q with an aggression in lo..hi that are not in out, in order. */
  function Within(q: Queue, lo: int, hi: int, out: set<MatchTicket>): Queue {
    if q == [] then []
    else
      var t := q[|q| - 1];
      Within(q[..|q| - 1], lo, hi, out) + (if lo <= t.aggression <= hi && t !in out then [t] else [])
  }

  /** The tickets exactly r steps of aggression away, those above before those below. */
  function Ring(q: Queue, out: set<MatchTicket>, a: int, r: nat): Queue {
    Within(q, a + r, a + r, out) + Within(q, a - r, a - r, out)
  }

  /** Same aggression first, then ring by ring, each in order of arrival. */
  function Candidates(q: Queue, out: set<MatchTicket>, a: int, r: nat): Queue {
    if r == 0 then Within(q, a, a, out)
    else Candidates(q, out, a, r - 1) + Ring(q, out, a, r)
  }

  function Take(q: Queue, n: nat): Queue { if |q| <= n then q else q[..n] }

  function Search(q: Queue, matched: set<MatchTicket>, pivot: MatchTicket, now: int): Queue {
    Take([pivot] + Candidates(q, matched + {pivot}, pivot.aggression, AllowedDiff(WaitSeconds(pivot, now))), GROUP_SIZE)
  }

  predicate Succeeds(q: Queue, matched: set<MatchTicket>, pivot: MatchTicket, now: int) {
    |Search(q, matched, pivot, now)| >= TargetMin(WaitSeconds(pivot, now))
  }

  function Members(g: Queue): set<MatchTicket> { set t | t in g }

  function AllMembers(groups: seq<Queue>): set<MatchTicket> {
    if groups == [] then {} else AllMembers(groups[..|groups| - 1]) + Members(groups[|groups| - 1])
  }

  /** The clock reading taken at each place in the queue. */
  type Clock = nat -> int

  /** Every unmatched ticket from k on gets its own search, however often the like of it has failed. */
  function Greedy(q: Queue, k: nat, matched: set<MatchTicket>, clock: Clock): seq<Queue>
    decreases |q| - k
  {
    if k >= |q| then []
    else if q[k] in matched || !Succeeds(q, matched, q[k], clock(k)) then Greedy(q, k + 1, matched, clock)
    else
      var g := Search(q, matched, q[k], clock(k));
      [g] + Greedy(q, k + 1, matched + Members(g), clock)
  }

  /** The same, but once a search has failed nobody of that aggression leads another. */
  function Remembering(q: Queue, k: nat, matched: set<MatchTicket>, failed: set<int>, clock: Clock): seq<Queue>
    decreases |q| - k
  {
    if k >= |q| then []
    else if q[k] in matched || q[k].aggression in failed then Remembering(q, k + 1, matched, failed, clock)
    else if !Succeeds(q, matched, q[k], clock(k)) then Remembering(q, k + 1, matched, failed + {q[k].aggression}, clock)
    else
      var g := Search(q, matched, q[k], clock(k));
      [g] + Remembering(q, k + 1, matched + Members(g), failed, clock)
  }

  /** The groups of one cycle. */
  function Found(q: Queue, clock: Clock): seq<Queue> { Remembering(q, 0, {}, {}, clock) }

  // ---- The filter ----

  lemma {:induction false} WithinHas(q: Queue, lo: int, hi: int, out: set<MatchTicket>, t: MatchTicket)
    ensures t in Within(q, lo, hi, out) <==> t in q && lo <= t.aggression <= hi && t !in out
  {
    if q != [] {
      WithinHas(q[..|q| - 1], lo, hi, out, t);
      assert q == q[..|q| - 1] + [q[|q| - 1]];
    }
  }

  lemma WithinIs(q: Queue, lo: int, hi: int, out: set<MatchTicket>)
    ensures forall t :: t in Within(q, lo, hi, out) <==> t in q && lo <= t.aggression <= hi && t !in out
  {
    forall t ensures t in Within(q, lo, hi, out) <==> t in q && lo <= t.aggression <= hi && t !in out {
      WithinHas(q, lo, hi, out, t);
    }
  }

  lemma {:induction false} WithinAppend(q: Queue, p: Queue, lo: int, hi: int, out: set<MatchTicket>)
    ensures Within(q + p, lo, hi, out) == Within(q, lo, hi, out) + Within(p, lo, hi, out)
  {
    if p == [] {
      assert q + p == q;
    } else {
      WithinAppend(q, p[..|p| - 1], lo, hi, out);
      assert (q + p)[..|q + p| - 1] == q + p[..|p| - 1];
    }
  }

  lemma WithinOne(t: MatchTicket, lo: int, hi: int, out: set<MatchTicket>)
    ensures Within([t], lo, hi, out) == if lo <= t.aggression <= hi && t !in out then [t] else []
  {
    assert |[t][..|[t]| - 1]| == 0;
  }

  /** Filtering a bucket is filtering the queue. */
  lemma {:induction false} WithinWithin(q: Queue, lo: int, hi: int, out: set<MatchTicket>, lo': int, hi': int,
      more: set<MatchTicket>)
    requires lo <= lo' && hi' <= hi
    ensures Within(Within(q, lo, hi, out), lo', hi', more) == Within(q, lo', hi', out + more)
  {
    if q != [] {
      var t, w := q[|q| - 1], Within(q[..|q| - 1], lo, hi, out);
      WithinWithin(q[..|q| - 1], lo, hi, out, lo', hi', more);
      WithinLast(q, lo, hi, out);
      WithinLast(q, lo', hi', out + more);
      if lo <= t.aggression <= hi && t !in out {
        WithinAppend(w, [t], lo', hi', more);
        WithinOne(t, lo', hi', more);
      } else {
        assert w + [] == w;
      }
    }
  }

  lemma WithinLast(q: Queue, lo: int, hi: int, out: set<MatchTicket>)
    requires q != []
    ensures var t := q[|q| - 1];
      Within(q, lo, hi, out) == Within(q[..|q| - 1], lo, hi, out) + if lo <= t.aggression <= hi && t !in out then [t]
          else []
  {}

  lemma {:induction false} WithinSplits(q: Queue, lo: int, mid: int, hi: int, out: set<MatchTicket>)
    requires lo <= mid + 1 <= hi + 1
    ensures |Within(q, lo, hi, out)| == |Within(q, lo, mid, out)| + |Within(q, mid + 1, hi, out)|
  {
    if q != [] { WithinSplits(q[..|q| - 1], lo, mid, hi, out); }
  }

  /** A narrower range with fewer tickets available holds no more tickets. */
  lemma {:induction false} WithinShrinks(q: Queue, lo: int, hi: int, out: set<MatchTicket>, lo': int, hi': int,
      out': set<MatchTicket>)
    requires lo <= lo' && hi' <= hi && out <= out'
    ensures |Within(q, lo', hi', out')| <= |Within(q, lo, hi, out)|
  {
    if q != [] { WithinShrinks(q[..|q| - 1], lo, hi, out, lo', hi', out'); }
  }

  lemma {:induction false} WithinLessOne(q: Queue, lo: int, hi: int, out: set<MatchTicket>, t: MatchTicket)
    requires Distinct(q) && t !in out && lo <= t.aggression <= hi
    ensures |Within(q, lo, hi, out + {t})| == |Within(q, lo, hi, out)| - (if t in q then 1 else 0)
  {
    if q != [] {
      var r := q[..|q| - 1];
      WithinLessOne(r, lo, hi, out, t);
      assert q == r + [q[|q| - 1]];
    }
  }

  lemma {:induction false} WithinDistinct(q: Queue, lo: int, hi: int, out: set<MatchTicket>)
    requires Distinct(q)
    ensures Distinct(Within(q, lo, hi, out))
  {
    if q != [] {
      var r := q[..|q| - 1];
      WithinDistinct(r, lo, hi, out);
      WithinIs(r, lo, hi, out);
      assert q == r + [q[|q| - 1]];
    }
  }

  lemma {:induction false} WithinBounded(q: Queue, lo: int, hi: int, out: set<MatchTicket>, latest: int)
    requires forall i | 0 <= i < |q| :: q[i].startTime <= latest
    ensures forall i | 0 <= i < |Within(q, lo, hi, out)| :: Within(q, lo, hi, out)[i].startTime <= latest
  {
    if q != [] { WithinBounded(q[..|q| - 1], lo, hi, out, latest); }
  }

  lemma {:induction false} WithinSorted(q: Queue, lo: int, hi: int, out: set<MatchTicket>)
    requires Sorted(q)
    ensures Sorted(Within(q, lo, hi, out))
  {
    if q != [] {
      WithinSorted(q[..|q| - 1], lo, hi, out);
      WithinBounded(q[..|q| - 1], lo, hi, out, q[|q| - 1].startTime);
    }
  }

  // ---- The search ----

  lemma {:induction false} CandidatesCount(q: Queue, out: set<MatchTicket>, a: int, r: nat)
    ensures |Candidates(q, out, a, r)| == |Within(q, a - r, a + r, out)|
  {
    if r > 0 {
      CandidatesCount(q, out, a, r - 1);
      WithinSplits(q, a - r, a - r, a + r, out);
      WithinSplits(q, a - r + 1, a + r - 1, a + r, out);
    }
  }

  lemma RingHas(q: Queue, out: set<MatchTicket>, a: int, r: nat, t: MatchTicket)
    ensures t in Ring(q, out, a, r) <==> t in q && (t.aggression == a + r || t.aggression == a - r) && t !in out
  {
    WithinHas(q, a + r, a + r, out, t);
    WithinHas(q, a - r, a - r, out, t);
  }

  lemma RingDistinct(q: Queue, out: set<MatchTicket>, a: int, r: nat)
    requires Distinct(q) && r > 0
    ensures Distinct(Ring(q, out, a, r))
  {
    WithinDistinct(q, a + r, a + r, out);
    WithinDistinct(q, a - r, a - r, out);
    var up, down := Within(q, a + r, a + r, out), Within(q, a - r, a - r, out);
    forall i | 0 <= i < |up| ensures up[i] !in down {
      WithinHas(q, a + r, a + r, out, up[i]);
      WithinHas(q, a - r, a - r, out, up[i]);
    }
    DistinctConcat(up, down);
  }

  lemma {:induction false} CandidatesAre(q: Queue, out: set<MatchTicket>, a: int, r: nat, t: MatchTicket)
    ensures t in Candidates(q, out, a, r) <==> t in q && a - r <= t.aggression <= a + r && t !in out
  {
    if r == 0 {
      WithinHas(q, a, a, out, t);
    } else {
      RingHas(q, out, a, r, t);
      CandidatesAre(q, out, a, r - 1, t);
    }
  }

  lemma RingApart(q: Queue, out: set<MatchTicket>, a: int, r: nat, t: MatchTicket)
    requires a - r < t.aggression < a + r
    ensures t !in Ring(q, out, a, r)
  {
    RingHas(q, out, a, r, t);
  }

  lemma NearInside(q: Queue, out: set<MatchTicket>, a: int, r: nat, c: Queue)
    requires c == Candidates(q, out, a, r)
    ensures forall i | 0 <= i < |c| :: a - r <= c[i].aggression <= a + r
  {
    forall i | 0 <= i < |c| ensures a - r <= c[i].aggression <= a + r { CandidatesAre(q, out, a, r, c[i]); }
  }

  lemma {:induction false} CandidatesDistinct(q: Queue, out: set<MatchTicket>, a: int, r: nat)
    requires Distinct(q)
    ensures Distinct(Candidates(q, out, a, r))
  {
    if r == 0 {
      WithinDistinct(q, a, a, out);
    } else {
      RingDistinct(q, out, a, r);
      CandidatesDistinct(q, out, a, r - 1);
      var c, ring := Candidates(q, out, a, r - 1), Ring(q, out, a, r);
      NearInside(q, out, a, r - 1, c);
      forall i | 0 <= i < |c| ensures c[i] !in ring { RingApart(q, out, a, r, c[i]); }
      DistinctConcat(c, ring);
    }
  }

  lemma DistinctConcat(p: Queue, q: Queue)
    requires Distinct(p) && Distinct(q) && forall i | 0 <= i < |p| :: p[i] !in q
    ensures Distinct(p + q)
  {}

  /** The search finds as many as there are in reach, up to a full group. */
  lemma SearchSize(q: Queue, matched: set<MatchTicket>, p: MatchTicket, now: int)
    requires Distinct(q) && p in q && p !in matched
    ensures var n :=
      |Within(q, p.aggression - AllowedDiff(WaitSeconds(p, now)), p.aggression + AllowedDiff(WaitSeconds(p, now)),
      matched)|;
      |Search(q, matched, p, now)| == if n <= GROUP_SIZE then n else GROUP_SIZE
  {
    CandidatesOthers(q, matched, p, p.aggression, AllowedDiff(WaitSeconds(p, now)));
  }

  lemma CandidatesOthers(q: Queue, matched: set<MatchTicket>, p: MatchTicket, a: int, d: nat)
    requires Distinct(q) && p in q && p !in matched && p.aggression == a
    ensures |Candidates(q, matched + {p}, a, d)| == |Within(q, a - d, a + d, matched)| - 1
  {
    assert |Candidates(q, matched + {p}, a, d)| == |Within(q, a - d, a + d, matched + {p})|
        by { CandidatesCount(q, matched + {p}, a, d); }
    assert |Within(q, a - d, a + d, matched + {p})| == |Within(q, a - d, a + d, matched)| - 1
        by { WithinLessOne(q, a - d, a + d, matched, p); }
  }

  /** A group leads with its pivot and holds distinct unmatched tickets within the allowed difference. */
  lemma SearchShape(q: Queue, matched: set<MatchTicket>, p: MatchTicket, now: int)
    requires Distinct(q) && p in q && p !in matched
    ensures var g := Search(q, matched, p, now); var d := AllowedDiff(WaitSeconds(p, now));
      && 1 <= |g| <= GROUP_SIZE && g[0] == p && Distinct(g) && p in Members(g)
      && (forall t <- Members(g) :: t in q && t !in matched && p.aggression - d <= t.aggression <= p.aggression + d)
  {
    var d := AllowedDiff(WaitSeconds(p, now));
    var c, g := Candidates(q, matched + {p}, p.aggression, d), Search(q, matched, p, now);
    CandidatesDistinct(q, matched + {p}, p.aggression, d);
    CandidatesAre(q, matched + {p}, p.aggression, d, p);
    DistinctConcat([p], c);
    assert g[0] == p && p in g;
    forall t | t in Members(g) ensures t in q && t !in matched && p.aggression - d <= t.aggression <= p.aggression + d {
      CandidatesAre(q, matched + {p}, p.aggression, d, t);
      assert t in [p] + c;
    }
  }

  /** Nobody is overtaken within one level of aggression: a ticket goes in only after the earlier ones. */
  lemma {:induction false} WithinFirst(q: Queue, lo: int, hi: int, out: set<MatchTicket>, i: nat, j: nat, n: nat)
    requires i < j < |q| && Distinct(q) && n <= |Within(q, lo, hi, out)|
    requires lo <= q[i].aggression <= hi && q[i] !in out && q[j] in Within(q, lo, hi, out)[..n]
    ensures q[i] in Within(q, lo, hi, out)[..n]
  {
    var r, t := q[..|q| - 1], q[|q| - 1];
    var w := Within(r, lo, hi, out);
    WithinIs(r, lo, hi, out);
    if n <= |w| {
      assert Within(q, lo, hi, out)[..n] == w[..n];
      assert q[j] in r;
      assert j < |r|;
      WithinFirst(r, lo, hi, out, i, j, n);
    } else {
      assert r[i] == q[i] && q[i] in w;
      assert Within(q, lo, hi, out)[..n] == w + [t];
    }
  }

  // ---- Why remembering failures loses nothing ----

  /** Fewer tickets of q are left around aggression a than a wait of w asks for. */
  ghost predicate Stuck(q: Queue, matched: set<MatchTicket>, a: int, w: int) {
    |Within(q, a - AllowedDiff(w), a + AllowedDiff(w), matched)| < TargetMin(w)
  }

  lemma FailsIffStuck(q: Queue, matched: set<MatchTicket>, p: MatchTicket, now: int)
    requires Distinct(q) && p in q && p !in matched
    ensures !Succeeds(q, matched, p, now) <==> Stuck(q, matched, p.aggression, WaitSeconds(p, now))
  {
    SearchSize(q, matched, p, now);
  }

  /** The four sets of terms a waiting time gives. */
  function Level(wait: int): nat { if wait >= 60 then 3 else if wait >= 40 then 2 else if wait >= 20 then 1 else 0 }

  lemma StuckStays(q: Queue, matched: set<MatchTicket>, matched': set<MatchTicket>, a: int, w: int, w': int)
    requires Stuck(q, matched, a, w) && matched <= matched' && Level(w') <= Level(w)
    ensures Stuck(q, matched', a, w')
  {
    WithinShrinks(q, a - AllowedDiff(w), a + AllowedDiff(w), matched, a - AllowedDiff(w'), a + AllowedDiff(w'),
        matched');
  }

  /** An earlier pivot of aggression a failed, and taking more tickets away has not helped since. */
  ghost predicate FailedBefore(q: Queue, k: nat, matched: set<MatchTicket>, a: int, clock: Clock) {
    exists i: nat :: i < k && i < |q| && q[i].aggression == a && Stuck(q, matched, a, WaitSeconds(q[i], clock(i)))
  }

  lemma FailureStays(q: Queue, k: nat, matched: set<MatchTicket>, matched': set<MatchTicket>, a: int, clock: Clock)
    requires FailedBefore(q, k, matched, a, clock) && matched <= matched'
    ensures FailedBefore(q, k + 1, matched', a, clock)
  {
    var i: nat :| i < k && i < |q| && q[i].aggression == a && Stuck(q, matched, a, WaitSeconds(q[i], clock(i)));
    StuckStays(q, matched, matched', a, WaitSeconds(q[i], clock(i)), WaitSeconds(q[i], clock(i)));
  }

  ghost predicate MemoryOk(q: Queue, k: nat, matched: set<MatchTicket>, failed: set<int>, clock: Clock) {
    forall a <- failed :: FailedBefore(q, k, matched, a, clock)
  }

  lemma MemoryStays(q: Queue, k: nat, matched: set<MatchTicket>, matched': set<MatchTicket>, failed: set<int>,
      clock: Clock)
    requires MemoryOk(q, k, matched, failed, clock) && matched <= matched'
    ensures MemoryOk(q, k + 1, matched', failed, clock)
  {
    forall a <- failed
      ensures FailedBefore(q, k + 1, matched', a, clock)
    {
      FailureStays(q, k, matched, matched', a, clock);
    }
  }

  lemma MemoryGrows(q: Queue, k: nat, matched: set<MatchTicket>, failed: set<int>, clock: Clock)
    requires MemoryOk(q, k, matched, failed, clock) && Distinct(q) && k < |q| && q[k] !in matched
      && !Succeeds(q, matched, q[k], clock(k))
    ensures MemoryOk(q, k + 1, matched, failed + {q[k].aggression}, clock)
  {
    MemoryStays(q, k, matched, matched, failed, clock);
    FailsIffStuck(q, matched, q[k], clock(k));
    assert FailedBefore(q, k + 1, matched, q[k].aggression, clock);
  }

  /** Every pivot the memory skips would have failed, too. */
  ghost predicate SkipsOnlyFailures(q: Queue, k: nat, matched: set<MatchTicket>, failed: set<int>, clock: Clock)
    decreases |q| - k
  {
    if k >= |q| then true
    else if q[k] in matched then SkipsOnlyFailures(q, k + 1, matched, failed, clock)
    else if q[k].aggression in failed then !Succeeds(q, matched, q[k], clock(k))
        && SkipsOnlyFailures(q, k + 1, matched, failed, clock)
    else if !Succeeds(q, matched, q[k], clock(k))
        then SkipsOnlyFailures(q, k + 1, matched, failed + {q[k].aggression}, clock)
    else SkipsOnlyFailures(q, k + 1, matched + Members(Search(q, matched, q[k], clock(k))), failed, clock)
  }

  lemma {:induction false} LedFromHere(q: Queue, k: nat, matched: set<MatchTicket>, failed: set<int>, clock: Clock)
    ensures var groups := Remembering(q, k, matched, failed, clock);
      groups == [] || (groups[0] != [] && exists j :: k <= j < |q| && groups[0][0] == q[j])
    decreases |q| - k
  {
    if k < |q| {
      if q[k] in matched || q[k].aggression in failed {
        LedFromHere(q, k + 1, matched, failed, clock);
      } else if !Succeeds(q, matched, q[k], clock(k)) {
        LedFromHere(q, k + 1, matched, failed + {q[k].aggression}, clock);
      } else {
        assert Remembering(q, k, matched, failed, clock)[0][0] == q[k];
      }
    }
  }

  /** Remembering failures costs no group exactly when no pivot is skipped that would have succeeded. */
  lemma {:induction false} LosesNothingIff(q: Queue, k: nat, matched: set<MatchTicket>, failed: set<int>, clock: Clock)
    requires Distinct(q)
    ensures Remembering(q, k, matched, failed, clock) == Greedy(q, k, matched, clock) <==>
      SkipsOnlyFailures(q, k, matched, failed, clock)
    decreases |q| - k
  {
    if k < |q| {
      var fails := !Succeeds(q, matched, q[k], clock(k));
      if q[k] in matched || (q[k].aggression in failed && fails) {
        LosesNothingIff(q, k + 1, matched, failed, clock);
      } else if q[k].aggression in failed {
        LedFromHere(q, k + 1, matched, failed, clock);
        assert Greedy(q, k, matched, clock)[0][0] == q[k];
      } else if fails {
        LosesNothingIff(q, k + 1, matched, failed + {q[k].aggression}, clock);
      } else {
        var g := Search(q, matched, q[k], clock(k));
        LosesNothingIff(q, k + 1, matched + Members(g), failed, clock);
        SameTail(g, Remembering(q, k + 1, matched + Members(g), failed, clock),
            Greedy(q, k + 1, matched + Members(g), clock));
      }
    }
  }

  lemma SameTail(g: Queue, p: seq<Queue>, r: seq<Queue>)
    ensures [g] + p == [g] + r <==> p == r
  {
    if [g] + p == [g] + r { assert p == ([g] + p)[1..] == ([g] + r)[1..] == r; }
  }

  /** When its turn comes, no ticket is on better terms than an earlier one of its aggression was at its turn. */
  ghost predicate Steady(q: Queue, clock: Clock) {
    forall i: nat, j: nat | i < j < |q| && q[i].aggression == q[j].aggression ::
      Level(WaitSeconds(q[j], clock(j))) <= Level(WaitSeconds(q[i], clock(i)))
  }

  /** So with one reading for the whole cycle, in a queue in order of arrival. */
  lemma OneReadingIsSteady(q: Queue, clock: Clock)
    requires Sorted(q) && forall i: nat | i < |q| :: clock(i) == clock(0)
    ensures Steady(q, clock)
  {
    forall i: nat, j: nat | i < j < |q| ensures WaitSeconds(q[j], clock(j)) <= WaitSeconds(q[i], clock(i)) {
      LaterWaitsLess(q, i, j, clock(0), clock(0));
    }
  }

  lemma {:induction false} SteadySkips(q: Queue, k: nat, matched: set<MatchTicket>, failed: set<int>, clock: Clock)
    requires Distinct(q) && Steady(q, clock) && MemoryOk(q, k, matched, failed, clock)
    ensures SkipsOnlyFailures(q, k, matched, failed, clock)
    decreases |q| - k
  {
    if k < |q| {
      if q[k] in matched {
        MemoryStays(q, k, matched, matched, failed, clock);
        SteadySkips(q, k + 1, matched, failed, clock);
      } else if q[k].aggression in failed {
        SkippedFails(q, k, matched, failed, clock);
        MemoryStays(q, k, matched, matched, failed, clock);
        SteadySkips(q, k + 1, matched, failed, clock);
      } else if !Succeeds(q, matched, q[k], clock(k)) {
        MemoryGrows(q, k, matched, failed, clock);
        SteadySkips(q, k + 1, matched, failed + {q[k].aggression}, clock);
      } else {
        var taken := matched + Members(Search(q, matched, q[k], clock(k)));
        MemoryStays(q, k, matched, taken, failed, clock);
        SteadySkips(q, k + 1, taken, failed, clock);
      }
    }
  }

  lemma SkippedFails(q: Queue, k: nat, matched: set<MatchTicket>, failed: set<int>, clock: Clock)
    requires Distinct(q) && Steady(q, clock) && MemoryOk(q, k, matched, failed, clock)
    requires k < |q| && q[k] !in matched && q[k].aggression in failed
    ensures !Succeeds(q, matched, q[k], clock(k))
  {
    var a := q[k].aggression;
    assert FailedBefore(q, k, matched, a, clock);
    var i: nat :| i < k && i < |q| && q[i].aggression == a && Stuck(q, matched, a, WaitSeconds(q[i], clock(i)));
    StuckStays(q, matched, matched, a, WaitSeconds(q[i], clock(i)), WaitSeconds(q[k], clock(k)));
    FailsIffStuck(q, matched, q[k], clock(k));
  }

  /** Under steady terms the memory is a pure saving: the groups are those of the search without it. */
  lemma SteadyLosesNothing(q: Queue, clock: Clock)
    requires Distinct(q) && Steady(q, clock)
    ensures Found(q, clock) == Greedy(q, 0, {}, clock)
  {
    SteadySkips(q, 0, {}, {}, clock);
    LosesNothingIff(q, 0, {}, {}, clock);
  }

  /** With readings between first and last, and nobody reaching better terms between the two, too. */
  lemma SameTermsAreSteady(q: Queue, clock: Clock, first: int, last: int)
    requires Sorted(q) && forall i: nat | i < |q| :: first <= clock(i) <= last
    requires forall t <- q :: Level(WaitSeconds(t, first)) == Level(WaitSeconds(t, last))
    ensures Steady(q, clock)
  {
    forall i: nat, j: nat | i < j < |q|
      ensures Level(WaitSeconds(q[j], clock(j))) <= Level(WaitSeconds(q[i], clock(i)))
    {
      LaterWaitsLess(q, j, j, clock(j), last);
      LaterWaitsLess(q, i, j, first, first);
      LaterWaitsLess(q, i, i, first, clock(i));
      assert q[j] in q;
    }
  }

  /** The clock passes 20 seconds between the first ticket and the second. */
  function Ticking(i: nat): int { if i == 0 then 20 * TICKS_PER_SECOND - 1 else 20 * TICKS_PER_SECOND }

  /** Where terms change within a cycle a group can be lost, be it by one tick of the clock: three tickets of one
      moment and one aggression fail to make four before 20 seconds, and at 20, when three are enough, nobody
      may lead any more. */
  lemma MemoryLosesAGroup(q: Queue)
    requires |q| == 3 && Distinct(q) && forall i | 0 <= i < 3 ::
      q[i].aggression == q[0].aggression && q[i].startTime == 0
    ensures Found(q, Ticking) == [] && Greedy(q, 0, {}, Ticking) != [] && |Greedy(q, 0, {}, Ticking)[0]| == 3
  {
    var a := q[0].aggression;
    WithinAll(q, a);
    SearchSize(q, {}, q[0], Ticking(0));
    SearchSize(q, {}, q[1], Ticking(1));
    assert !Succeeds(q, {}, q[0], Ticking(0)) && Succeeds(q, {}, q[1], Ticking(1));
    assert Remembering(q, 0, {}, {}, Ticking) == Remembering(q, 1, {}, {} + {a}, Ticking);
    assert Remembering(q, 1, {}, {} + {a}, Ticking) == Remembering(q, 2, {}, {} + {a}, Ticking) == [];
    assert Greedy(q, 0, {}, Ticking) == Greedy(q, 1, {}, Ticking);
  }

  lemma {:induction false} WithinAll(q: Queue, a: int)
    requires forall i | 0 <= i < |q| :: q[i].aggression == a
    ensures Within(q, a, a, {}) == q
  {
    if q != [] { WithinAll(q[..|q| - 1], a); }
  }

  lemma LaterWaitsLess(q: Queue, i: nat, j: nat, now: int, later: int)
    requires Sorted(q) && i <= j < |q| && now <= later
    ensures WaitSeconds(q[j], now) <= WaitSeconds(q[i], later)
  {}

  // ---- What the groups are ----

  /** Groups found one after another: each a search's own result, from tickets no earlier group took. */
  ghost predicate GroupsOk(q: Queue, matched: set<MatchTicket>, groups: seq<Queue>, clock: Clock) {
    forall k | 0 <= k < |groups| :: GroupOk(q, matched + AllMembers(groups[..k]), groups[k], clock)
  }

  ghost predicate GroupOk(q: Queue, taken: set<MatchTicket>, g: Queue, clock: Clock) {
    && g != [] && g[0] !in taken && (exists j: nat :: j < |q| && q[j] == g[0] && LedAt(q, taken, g, clock(j)))
    && |g| <= GROUP_SIZE && Distinct(g) && Members(g) !! taken && (forall t <- Members(g) :: t in q)
  }

  /** The group its first ticket finds at a reading, and large enough for its wait then. */
  ghost predicate LedAt(q: Queue, taken: set<MatchTicket>, g: Queue, now: int)
    requires g != []
  {
    g == Search(q, taken, g[0], now) && TargetMin(WaitSeconds(g[0], now)) <= |g|
  }

  lemma {:induction false} AllMembersFirst(g: Queue, groups: seq<Queue>)
    ensures AllMembers([g] + groups) == Members(g) + AllMembers(groups)
  {
    if groups == [] {
      assert [g] + groups == [g] && AllMembers([g][..0]) == {};
    } else {
      AllMembersFirst(g, groups[..|groups| - 1]);
      assert ([g] + groups)[..|[g] + groups| - 1] == [g] + groups[..|groups| - 1];
    }
  }

  lemma GroupsCons(q: Queue, matched: set<MatchTicket>, g: Queue, rest: seq<Queue>, clock: Clock)
    requires GroupOk(q, matched, g, clock) && GroupsOk(q, matched + Members(g), rest, clock)
    ensures GroupsOk(q, matched, [g] + rest, clock)
  {
    var groups := [g] + rest;
    forall i | 0 <= i < |groups| ensures GroupOk(q, matched + AllMembers(groups[..i]), groups[i], clock) {
      if i == 0 {
        assert matched + AllMembers(groups[..0]) == matched;
      } else {
        assert GroupOk(q, matched + Members(g) + AllMembers(rest[..i - 1]), rest[i - 1], clock);
        TakenBefore(matched, g, rest, i);
      }
    }
  }

  lemma TakenBefore(matched: set<MatchTicket>, g: Queue, rest: seq<Queue>, i: nat)
    requires 0 < i <= |rest|
    ensures matched + AllMembers(([g] + rest)[..i]) == matched + Members(g) + AllMembers(rest[..i - 1])
  {
    AllMembersFirst(g, rest[..i - 1]);
    assert ([g] + rest)[..i] == [g] + rest[..i - 1];
  }

  lemma {:induction false} RememberingGroups(q: Queue, k: nat, matched: set<MatchTicket>, failed: set<int>,
      clock: Clock)
    requires Distinct(q)
    ensures GroupsOk(q, matched, Remembering(q, k, matched, failed, clock), clock)
    decreases |q| - k
  {
    if k < |q| {
      if q[k] in matched || q[k].aggression in failed {
        RememberingGroups(q, k + 1, matched, failed, clock);
      } else if !Succeeds(q, matched, q[k], clock(k)) {
        RememberingGroups(q, k + 1, matched, failed + {q[k].aggression}, clock);
      } else {
        var g := Search(q, matched, q[k], clock(k));
        SearchShape(q, matched, q[k], clock(k));
        assert LedAt(q, matched, g, clock(k));
        RememberingGroups(q, k + 1, matched + Members(g), failed, clock);
        GroupsCons(q, matched, g, Remembering(q, k + 1, matched + Members(g), failed, clock), clock);
      }
    }
  }

  /** The groups are pairwise disjoint. */
  lemma GroupsDisjoint(q: Queue, clock: Clock, i: nat, j: nat)
    requires Distinct(q) && i < j < |Found(q, clock)|
    ensures Members(Found(q, clock)[i]) !! Members(Found(q, clock)[j])
  {
    var groups := Found(q, clock);
    RememberingGroups(q, 0, {}, {}, clock);
    AllMembersHas(groups[..j], i);
    assert groups[..j][i] == groups[i];
    assert GroupOk(q, {} + AllMembers(groups[..j]), groups[j], clock);
  }

  lemma {:induction false} AllMembersHas(groups: seq<Queue>, i: nat)
    requires i < |groups|
    ensures Members(groups[i]) <= AllMembers(groups)
  {
    if i < |groups| - 1 { AllMembersHas(groups[..|groups| - 1], i); }
  }

  // ---- Matching is maximal ----

  /** Left over, a ticket has too few unmatched ones in the range it may ask for at that reading. */
  ghost predicate LeftStuck(q: Queue, all: set<MatchTicket>, t: MatchTicket, now: int) {
    t !in all ==> Stuck(q, all, t.aggression, WaitSeconds(t, now))
  }

  /** A pivot that failed at its own reading, or was skipped after one that did, is stuck at an earlier one. */
  lemma FailedIsStuck(q: Queue, k: nat, matched: set<MatchTicket>, failed: set<int>, clock: Clock, first: int,
      all: set<MatchTicket>)
    requires Distinct(q) && Sorted(q) && (forall i: nat | i < |q| :: first <= clock(i))
      && MemoryOk(q, k, matched, failed, clock)
    requires k < |q| && q[k] !in matched && (q[k].aggression in failed || !Succeeds(q, matched, q[k], clock(k)))
      && matched <= all
    ensures Stuck(q, all, q[k].aggression, WaitSeconds(q[k], first))
  {
    var a := q[k].aggression;
    if a in failed {
      assert FailedBefore(q, k, matched, a, clock);
      var i: nat :| i < k && i < |q| && q[i].aggression == a && Stuck(q, matched, a, WaitSeconds(q[i], clock(i)));
      LaterWaitsLess(q, i, k, first, clock(i));
      StuckStays(q, matched, all, a, WaitSeconds(q[i], clock(i)), WaitSeconds(q[k], first));
    } else {
      FailsIffStuck(q, matched, q[k], clock(k));
      LaterWaitsLess(q, k, k, first, clock(k));
      StuckStays(q, matched, all, a, WaitSeconds(q[k], clock(k)), WaitSeconds(q[k], first));
    }
  }

  ghost predicate AllLeftStuck(q: Queue, k: nat, all: set<MatchTicket>, first: int) {
    forall i | k <= i < |q| :: LeftStuck(q, all, q[i], first)
  }

  lemma OneMoreStuck(q: Queue, k: nat, all: set<MatchTicket>, first: int)
    requires k < |q| && AllLeftStuck(q, k + 1, all, first) && LeftStuck(q, all, q[k], first)
    ensures AllLeftStuck(q, k, all, first)
  {}

  lemma TakenWith(q: Queue, k: nat, matched: set<MatchTicket>, failed: set<int>, clock: Clock)
    requires Distinct(q) && k < |q| && q[k] !in matched && q[k].aggression !in failed
      && Succeeds(q, matched, q[k], clock(k))
    ensures var g := Search(q, matched, q[k], clock(k));
      && q[k] in Members(g)
      && matched + AllMembers(Remembering(q, k, matched, failed, clock))
        == matched + Members(g) + AllMembers(Remembering(q, k + 1, matched + Members(g), failed, clock))
  {
    var g := Search(q, matched, q[k], clock(k));
    SearchShape(q, matched, q[k], clock(k));
    AllMembersFirst(g, Remembering(q, k + 1, matched + Members(g), failed, clock));
  }

  lemma {:induction false} RememberingIsMaximal(q: Queue, k: nat, matched: set<MatchTicket>, failed: set<int>,
      clock: Clock, first: int)
    requires Distinct(q) && Sorted(q) && (forall i: nat | i < |q| :: first <= clock(i))
      && MemoryOk(q, k, matched, failed, clock)
    ensures AllLeftStuck(q, k, matched + AllMembers(Remembering(q, k, matched, failed, clock)), first)
    decreases |q| - k
  {
    if k < |q| {
      var all := matched + AllMembers(Remembering(q, k, matched, failed, clock));
      if q[k] in matched || q[k].aggression in failed {
        MemoryStays(q, k, matched, matched, failed, clock);
        RememberingIsMaximal(q, k + 1, matched, failed, clock, first);
        if q[k] !in matched { FailedIsStuck(q, k, matched, failed, clock, first, all); }
      } else if !Succeeds(q, matched, q[k], clock(k)) {
        MemoryGrows(q, k, matched, failed, clock);
        RememberingIsMaximal(q, k + 1, matched, failed + {q[k].aggression}, clock, first);
        FailedIsStuck(q, k, matched, failed, clock, first, all);
      } else {
        var taken := matched + Members(Search(q, matched, q[k], clock(k)));
        TakenWith(q, k, matched, failed, clock);
        MemoryStays(q, k, matched, taken, failed, clock);
        RememberingIsMaximal(q, k + 1, taken, failed, clock, first);
      }
      OneMoreStuck(q, k, all, first);
    }
  }

  /** Whoever is left over could not have been helped, memory or not: on the terms of any moment no later than
      the cycle's readings, too few unmatched tickets remain in its range. */
  lemma LeftoversAreStuck(q: Queue, clock: Clock, first: int, t: MatchTicket)
    requires Distinct(q) && Sorted(q) && (forall i: nat | i < |q| :: first <= clock(i)) && t in q
    ensures t !in AllMembers(Found(q, clock)) ==>
      Stuck(q, AllMembers(Found(q, clock)), t.aggression, WaitSeconds(t, first))
  {
    RememberingIsMaximal(q, 0, {}, {}, clock, first);
    assert {} + AllMembers(Found(q, clock)) == AllMembers(Found(q, clock));
    var i :| 0 <= i < |q| && q[i] == t;
    assert LeftStuck(q, {} + AllMembers(Found(q, clock)), q[i], first);
  }

  /** A minute's wait when the cycle begins always ends in a group. */
  lemma MinuteIsEnough(q: Queue, clock: Clock, first: int, t: MatchTicket)
    requires Distinct(q) && Sorted(q) && (forall i: nat | i < |q| :: first <= clock(i)) && t in q
      && WaitSeconds(t, first) >= 60
    ensures t in AllMembers(Found(q, clock))
  {
    var all := AllMembers(Found(q, clock));
    LeftoversAreStuck(q, clock, first, t);
    WithinHas(q, t.aggression - 1, t.aggression + 1, all, t);
  }

  // ---- Nobody is overtaken ----

  /** Among the first n of s, the later of two tickets of one aggression comes only with the earlier. */
  ghost predicate InTurnAt(q: Queue, out: set<MatchTicket>, s: Queue, i: int, j: int, n: int) {
    0 <= i < j < |q| && q[i].aggression == q[j].aggression && q[i] !in out && 0 <= n <= |s| && q[j] in s[..n] ==>
        q[i] in s[..n]
  }

  ghost predicate InTurn(q: Queue, out: set<MatchTicket>, s: Queue) {
    forall i, j, n :: InTurnAt(q, out, s, i, j, n)
  }

  lemma InPrefixOf(p: Queue, q: Queue, n: nat, t: MatchTicket)
    requires n <= |p + q|
    ensures t in (p + q)[..n] <==> if n <= |p| then t in p[..n] else t in p || t in q[..n - |p|]
  {
    if n <= |p| {
      assert (p + q)[..n] == p[..n];
    } else {
      assert (p + q)[..n] == p + q[..n - |p|];
    }
  }

  lemma InTurnConcat(q: Queue, out: set<MatchTicket>, s: Queue, s': Queue)
    requires InTurn(q, out, s) && InTurn(q, out, s')
    ensures InTurn(q, out, s + s')
  {
    forall i, j, n ensures InTurnAt(q, out, s + s', i, j, n) {
      if 0 <= i < j < |q| && 0 <= n <= |s + s'| {
        InPrefixOf(s, s', n, q[i]);
        InPrefixOf(s, s', n, q[j]);
        assert InTurnAt(q, out, s, i, j, n) && InTurnAt(q, out, s, i, j, |s|) && InTurnAt(q, out, s', i, j, n - |s|);
        assert s[..|s|] == s;
      }
    }
  }

  lemma WithinInTurn(q: Queue, lo: int, hi: int, out: set<MatchTicket>)
    requires Distinct(q)
    ensures InTurn(q, out, Within(q, lo, hi, out))
  {
    forall i, j, n ensures InTurnAt(q, out, Within(q, lo, hi, out), i, j, n) {
      if 0 <= i < j < |q| && 0 <= n <= |Within(q, lo, hi, out)| && q[j] in Within(q, lo, hi, out)[..n] {
        WithinHas(q, lo, hi, out, q[j]);
        if q[i].aggression == q[j].aggression && q[i] !in out { WithinFirst(q, lo, hi, out, i, j, n); }
      }
    }
  }

  lemma {:induction false} CandidatesInTurn(q: Queue, out: set<MatchTicket>, a: int, r: nat)
    requires Distinct(q)
    ensures InTurn(q, out, Candidates(q, out, a, r))
  {
    if r == 0 {
      WithinInTurn(q, a, a, out);
    } else {
      WithinInTurn(q, a + r, a + r, out);
      WithinInTurn(q, a - r, a - r, out);
      InTurnConcat(q, out, Within(q, a + r, a + r, out), Within(q, a - r, a - r, out));
      CandidatesInTurn(q, out, a, r - 1);
      InTurnConcat(q, out, Candidates(q, out, a, r - 1), Ring(q, out, a, r));
    }
  }

  /** Of two unmatched tickets of one aggression the later is taken only together with the earlier. */
  lemma NobodyOvertaken(q: Queue, matched: set<MatchTicket>, p: MatchTicket, now: int, i: nat, j: nat)
    requires Distinct(q) && i < j < |q| && q[i].aggression == q[j].aggression && q[i] !in matched && q[j] != p
    requires q[j] in Search(q, matched, p, now)
    ensures q[i] in Search(q, matched, p, now)
  {
    var c := Candidates(q, matched + {p}, p.aggression, AllowedDiff(WaitSeconds(p, now)));
    var n := if |c| < GROUP_SIZE then |c| + 1 else GROUP_SIZE;
    assert Search(q, matched, p, now) == ([p] + c)[..n];
    InPrefixOf([p], c, n, q[i]);
    InPrefixOf([p], c, n, q[j]);
    CandidatesInTurn(q, matched + {p}, p.aggression, AllowedDiff(WaitSeconds(p, now)));
    assert InTurnAt(q, matched + {p}, c, i, j, n - 1);
  }

  // ---- In what order ----

  function Distance(a: int, t: MatchTicket): nat { if t.aggression >= a then t.aggression - a else a - t.aggression }

  /** From level a, q[i] comes before q[j]: it is nearer, or as near and above where q[j] is below, or of the same
      aggression and further ahead in the queue. */
  ghost predicate Sooner(q: Queue, a: int, i: int, j: int) {
    && 0 <= i < |q| && 0 <= j < |q|
    && (|| Distance(a, q[i]) < Distance(a, q[j])
        || (Distance(a, q[i]) == Distance(a, q[j]) && q[i].aggression > q[j].aggression)
        || (q[i].aggression == q[j].aggression && i < j))
  }

  ghost predicate SoonerTickets(q: Queue, a: int, t: MatchTicket, u: MatchTicket) {
    forall i, j | 0 <= i < |q| && 0 <= j < |q| && q[i] == t && q[j] == u :: Sooner(q, a, i, j)
  }

  ghost predicate Ordered(q: Queue, a: int, s: Queue) {
    forall m, n | 0 <= m < n < |s| :: SoonerTickets(q, a, s[m], s[n])
  }

  lemma {:induction false} WithinAhead(q: Queue, lo: int, hi: int, out: set<MatchTicket>, m: int, n: int, i: int,
      j: int)
    requires Distinct(q) && 0 <= m < n < |Within(q, lo, hi, out)| && 0 <= i < |q| && 0 <= j < |q|
    requires Within(q, lo, hi, out)[m] == q[i] && Within(q, lo, hi, out)[n] == q[j]
    ensures i < j
  {
    var r := q[..|q| - 1];
    var w := Within(r, lo, hi, out);
    WithinHas(r, lo, hi, out, q[i]);
    WithinHas(r, lo, hi, out, q[j]);
    assert w[m] == q[i] && q[i] in r;
    if n < |w| {
      assert w[n] == q[j] && q[j] in r;
      WithinAhead(r, lo, hi, out, m, n, i, j);
    }
  }

  lemma LevelOrdered(q: Queue, a: int, x: int, out: set<MatchTicket>)
    requires Distinct(q)
    ensures Ordered(q, a, Within(q, x, x, out))
  {
    var w := Within(q, x, x, out);
    forall m, n | 0 <= m < n < |w| ensures SoonerTickets(q, a, w[m], w[n]) {
      WithinHas(q, x, x, out, w[m]);
      WithinHas(q, x, x, out, w[n]);
      forall i, j | 0 <= i < |q| && 0 <= j < |q| && q[i] == w[m] && q[j] == w[n] ensures Sooner(q, a, i, j) {
        WithinAhead(q, x, x, out, m, n, i, j);
      }
    }
  }

  lemma OrderedConcat(q: Queue, a: int, s: Queue, s': Queue)
    requires Ordered(q, a, s) && Ordered(q, a, s')
    requires forall m, n | 0 <= m < |s| && 0 <= n < |s'| :: SoonerTickets(q, a, s[m], s'[n])
    ensures Ordered(q, a, s + s')
  {}

  lemma RingOrdered(q: Queue, out: set<MatchTicket>, a: int, r: nat)
    requires Distinct(q) && r > 0
    ensures Ordered(q, a, Ring(q, out, a, r))
  {
    var up, down := Within(q, a + r, a + r, out), Within(q, a - r, a - r, out);
    LevelOrdered(q, a, a + r, out);
    LevelOrdered(q, a, a - r, out);
    forall m, n | 0 <= m < |up| && 0 <= n < |down| ensures SoonerTickets(q, a, up[m], down[n]) {
      WithinHas(q, a + r, a + r, out, up[m]);
      WithinHas(q, a - r, a - r, out, down[n]);
    }
    OrderedConcat(q, a, up, down);
  }

  lemma {:induction false} CandidatesOrdered(q: Queue, out: set<MatchTicket>, a: int, r: nat)
    requires Distinct(q)
    ensures Ordered(q, a, Candidates(q, out, a, r))
  {
    if r == 0 {
      LevelOrdered(q, a, a, out);
    } else {
      CandidatesOrdered(q, out, a, r - 1);
      RingOrdered(q, out, a, r);
      InnerIsSooner(q, out, a, r, Candidates(q, out, a, r - 1), Ring(q, out, a, r));
      OrderedConcat(q, a, Candidates(q, out, a, r - 1), Ring(q, out, a, r));
    }
  }

  lemma InnerIsSooner(q: Queue, out: set<MatchTicket>, a: int, r: nat, inner: Queue, ring: Queue)
    requires r > 0 && inner == Candidates(q, out, a, r - 1) && ring == Ring(q, out, a, r)
    ensures forall m, n | 0 <= m < |inner| && 0 <= n < |ring| :: SoonerTickets(q, a, inner[m], ring[n])
  {
    NearInside(q, out, a, r - 1, inner);
    AtRing(q, out, a, r, ring);
    NearerIsSooner(q, a, r, inner, ring);
  }

  lemma AtRing(q: Queue, out: set<MatchTicket>, a: int, r: nat, ring: Queue)
    requires ring == Ring(q, out, a, r)
    ensures forall n | 0 <= n < |ring| :: Distance(a, ring[n]) == r
  {
    forall n | 0 <= n < |ring| ensures Distance(a, ring[n]) == r { RingHas(q, out, a, r, ring[n]); }
  }

  lemma NearerIsSooner(q: Queue, a: int, r: nat, inner: Queue, ring: Queue)
    requires forall m | 0 <= m < |inner| :: Distance(a, inner[m]) < r
    requires forall n | 0 <= n < |ring| :: Distance(a, ring[n]) == r
    ensures forall m, n | 0 <= m < |inner| && 0 <= n < |ring| :: SoonerTickets(q, a, inner[m], ring[n])
  {}

  /** What a search takes, and in what order, beyond its size: behind the pivot stand tickets each sooner than the
      next; and nobody is taken while somebody available, within the allowed difference and sooner, is not. */
  lemma SearchOrder(q: Queue, matched: set<MatchTicket>, p: MatchTicket, now: int, i: nat, j: nat)
    requires Distinct(q) && p in q && p !in matched && i < |q| && j < |q|
    requires q[i] != p && q[i] !in matched && q[j] != p && q[j] in Search(q, matched, p, now)
    requires Sooner(q, p.aggression, i, j)
    ensures q[i] in Search(q, matched, p, now)
    ensures var g := Search(q, matched, p, now);
      g[0] == p && forall m, n | 0 <= m < |g| && 0 <= n < |g| && g[m] == q[i] && g[n] == q[j] :: 0 < m < n
  {
    var d := AllowedDiff(WaitSeconds(p, now));
    var c, g := Candidates(q, matched + {p}, p.aggression, d), Search(q, matched, p, now);
    SearchShape(q, matched, p, now);
    CandidatesOrdered(q, matched + {p}, p.aggression, d);
    assert q[j] in Members(g);
    CandidatesAre(q, matched + {p}, p.aggression, d, q[i]);
    CandidatesAre(q, matched + {p}, p.aggression, d, q[j]);
    var n :| 0 <= n < |g| && g[n] == q[j];
    var m :| 0 <= m < |c| && c[m] == q[i];
    assert c[n - 1] == q[j];
    SoonerIsFirst(q, p.aggression, c, m, n - 1, i, j);
    assert g[m + 1] == q[i];
  }

  lemma SoonerIsFirst(q: Queue, a: int, c: Queue, m: nat, n: nat, i: nat, j: nat)
    requires Distinct(q) && Ordered(q, a, c) && m < |c| && n < |c| && i < |q| && j < |q|
    requires c[m] == q[i] && c[n] == q[j] && Sooner(q, a, i, j)
    ensures m < n
  {
    assert n < m ==> SoonerTickets(q, a, c[n], c[m]);
    NotBoth(q, a, i, j);
  }

  lemma NotBoth(q: Queue, a: int, i: nat, j: nat)
    requires Distinct(q) && i < |q| && j < |q| && Sooner(q, a, i, j)
    ensures q[i] != q[j] && !Sooner(q, a, j, i)
  {}

  lemma SearchLeads(q: Queue, matched: set<MatchTicket>, p: MatchTicket, now: int)
    ensures var g := Search(q, matched, p, now); g != [] && g[0] == p
  {}

  /** The groups are led by the tickets at places ks of the queue, each further back than the one before. */
  ghost predicate LedFrom(q: Queue, k: nat, groups: seq<Queue>, ks: seq<nat>) {
    && |ks| == |groups|
    && (forall n | 0 <= n < |ks| :: k <= ks[n] < |q| && groups[n] != [] && groups[n][0] == q[ks[n]])
    && forall m, n | 0 <= m < n < |ks| :: ks[m] < ks[n]
  }

  lemma LedOneMore(q: Queue, k: nat, g: Queue, groups: seq<Queue>, ks: seq<nat>)
    requires k < |q| && g != [] && g[0] == q[k] && LedFrom(q, k + 1, groups, ks)
    ensures LedFrom(q, k, [g] + groups, [k] + ks)
  {}

  lemma {:induction false} Leaders(q: Queue, k: nat, matched: set<MatchTicket>, failed: set<int>, clock: Clock)
    returns (ks: seq<nat>)
    ensures LedFrom(q, k, Remembering(q, k, matched, failed, clock), ks)
    decreases |q| - k
  {
    if k >= |q| {
      ks := [];
    } else if q[k] in matched || q[k].aggression in failed {
      ks := Leaders(q, k + 1, matched, failed, clock);
    } else if !Succeeds(q, matched, q[k], clock(k)) {
      ks := Leaders(q, k + 1, matched, failed + {q[k].aggression}, clock);
    } else {
      var g := Search(q, matched, q[k], clock(k));
      var rest := Leaders(q, k + 1, matched + Members(g), failed, clock);
      SearchLeads(q, matched, q[k], clock(k));
      LedOneMore(q, k, g, Remembering(q, k + 1, matched + Members(g), failed, clock), rest);
      ks := [k] + rest;
    }
  }

  /** Groups are led in order of arrival: the first ticket of an earlier group stands ahead in the queue. */
  lemma LeadersInOrder(q: Queue, clock: Clock, m: nat, n: nat)
    requires m < n < |Found(q, clock)|
    ensures var (g, h) := (Found(q, clock)[m], Found(q, clock)[n]);
      g != [] && h != [] && exists i, j :: 0 <= i < j < |q| && q[i] == g[0] && q[j] == h[0]
  {
    var ks := Leaders(q, 0, {}, {}, clock);
    assert q[ks[m]] == Found(q, clock)[m][0] && q[ks[n]] == Found(q, clock)[n][0] && ks[m] < ks[n];
  }

  // ---- On what terms ----

  const SECOND := 1_000_000_000

  /** The terms of every group, in the nanoseconds its first ticket had waited at its reading: four at first, three
      after 20 seconds, two after 40 and one after 60, of one aggression and from 40 seconds on of the next ones too. */
  lemma GroupTerms(q: Queue, clock: Clock, k: nat)
    requires Distinct(q) && k < |Found(q, clock)|
    ensures var g := Found(q, clock)[k];
      && 1 <= |g| <= 4 && exists j: nat :: j < |q| && g[0] == q[j] && OnTerms(g, clock(j) - q[j].startTime)
  {
    var groups := Found(q, clock);
    var g, taken := groups[k], {} + AllMembers(groups[..k]);
    RememberingGroups(q, 0, {}, {}, clock);
    assert GroupOk(q, taken, g, clock);
    var j: nat :| j < |q| && q[j] == g[0] && LedAt(q, taken, g, clock(j));
    SearchShape(q, taken, g[0], clock(j));
    forall t <- g ensures t in Members(g) {}
    assert OnTerms(g, clock(j) - q[j].startTime);
  }

  ghost predicate OnTerms(g: Queue, waited: int)
    requires g != []
  {
    && (waited < 20 * SECOND ==> |g| >= 4) && (waited < 40 * SECOND ==> |g| >= 3) && (waited < 60 * SECOND ==> |g| >= 2)
    && (waited < 40 * SECOND ==> forall t <- g :: t.aggression == g[0].aggression)
    && forall t <- g :: g[0].aggression - 1 <= t.aggression <= g[0].aggression + 1
  }

  /** Who is left over has fewer than those around: at 40 seconds it is alone among the unmatched of its aggression
      and the next ones, at 20 there are at most two of its aggression, before at most three. */
  lemma LeftoverTerms(q: Queue, clock: Clock, first: int, t: MatchTicket, others: seq<MatchTicket>)
    requires Distinct(q) && Sorted(q) && (forall i: nat | i < |q| :: first <= clock(i)) && t in q
    requires t !in AllMembers(Found(q, clock))
    requires Distinct(others) && forall u <- others :: u in q && u !in AllMembers(Found(q, clock))
    ensures first - t.startTime < 60 * SECOND
    ensures
      first - t.startTime >= 40 * SECOND && (forall u <- others :: Distance(t.aggression, u) <= 1) ==> |others| <= 1
    ensures first - t.startTime >= 20 * SECOND && (forall u <- others :: u.aggression == t.aggression) ==> |others| <= 2
    ensures (forall u <- others :: u.aggression == t.aggression) ==> |others| <= 3
  {
    var all := AllMembers(Found(q, clock));
    LeftoversAreStuck(q, clock, first, t);
    if first - t.startTime >= 60 * SECOND { MinuteIsEnough(q, clock, first, t); }
    var near := Within(q, t.aggression - 1, t.aggression + 1, all);
    var own := Within(q, t.aggression, t.aggression, all);
    if forall u <- others :: Distance(t.aggression, u) <= 1 {
      forall u <- others ensures u in near { WithinHas(q, t.aggression - 1, t.aggression + 1, all, u); }
      DistinctFits(others, near);
    }
    if forall u <- others :: u.aggression == t.aggression {
      forall u <- others ensures u in own && u in near {
        WithinHas(q, t.aggression, t.aggression, all, u);
        WithinHas(q, t.aggression - 1, t.aggression + 1, all, u);
      }
      DistinctFits(others, own);
      DistinctFits(others, near);
    }
  }

  lemma {:induction false} DistinctFits(p: Queue, q: Queue)
    requires Distinct(p) && forall t <- p :: t in q
    ensures |p| <= |q|
  {
    if p != [] {
      var n := |p| - 1;
      assert p[n] in p;
      var k :| 0 <= k < |q| && q[k] == p[n];
      var rest := q[..k] + q[k + 1..];
      forall t <- p[..n] ensures t in rest {
        assert t in p && t != p[n];
        assert q == q[..k] + [q[k]] + q[k + 1..];
      }
      DistinctFits(p[..n], rest);
    }
  }

  // ---- Arrivals ----

  /** std::merge: on equal stamps the first range goes first. */
  function Merge(p: Queue, q: Queue): Queue {
    if p == [] then q
    else if q == [] then p
    else if q[0].startTime < p[0].startTime then [q[0]] + Merge(p, q[1..])
    else [p[0]] + Merge(p[1..], q)
  }

  function StableSort(q: Queue): Queue {
    if q == [] then [] else Merge([q[0]], StableSort(q[1..]))
  }

  lemma {:induction false} MergeInOrder(p: Queue, q: Queue)
    requires Sorted(p + q)
    ensures Merge(p, q) == p + q
  {
    if p != [] && q != [] {
      assert (p + q)[0] == p[0] && (p + q)[|p|] == q[0] && (p + q)[1..] == p[1..] + q;
      assert p + q == [p[0]] + (p[1..] + q);
      MergeInOrder(p[1..], q);
    } else {
      assert p + [] == p && [] + q == q;
    }
  }

  lemma {:induction false} SortInOrder(q: Queue)
    requires Sorted(q)
    ensures StableSort(q) == q
  {
    if q != [] {
      SortInOrder(q[1..]);
      assert q == [q[0]] + q[1..];
      MergeInOrder([q[0]], q[1..]);
    }
  }

  lemma {:induction false} MergeFrom(p: Queue, q: Queue, earliest: int)
    requires forall i | 0 <= i < |p| :: earliest <= p[i].startTime
    requires forall i | 0 <= i < |q| :: earliest <= q[i].startTime
    ensures forall i | 0 <= i < |Merge(p, q)| :: earliest <= Merge(p, q)[i].startTime
    decreases |p| + |q|
  {
    if p != [] && q != [] {
      if q[0].startTime < p[0].startTime { MergeFrom(p, q[1..], earliest); } else { MergeFrom(p[1..], q, earliest); }
    }
  }

  lemma {:induction false} MergeSorted(p: Queue, q: Queue)
    requires Sorted(p) && Sorted(q)
    ensures Sorted(Merge(p, q))
    decreases |p| + |q|
  {
    if p != [] && q != [] {
      if q[0].startTime < p[0].startTime {
        MergeSorted(p, q[1..]);
        MergeFrom(p, q[1..], q[0].startTime);
      } else {
        MergeSorted(p[1..], q);
        MergeFrom(p[1..], q, p[0].startTime);
      }
    }
  }

  lemma {:induction false} MergeHas(p: Queue, q: Queue)
    ensures multiset(Merge(p, q)) == multiset(p) + multiset(q)
    decreases |p| + |q|
  {
    if p != [] && q != [] {
      if q[0].startTime < p[0].startTime {
        MergeHas(p, q[1..]);
        assert q == [q[0]] + q[1..];
      } else {
        MergeHas(p[1..], q);
        assert p == [p[0]] + p[1..];
      }
    }
  }

  /** Sorting puts the same tickets in order of their stamps. */
  lemma {:induction false} SortSorts(q: Queue)
    ensures Sorted(StableSort(q)) && multiset(StableSort(q)) == multiset(q)
  {
    if q != [] {
      SortSorts(q[1..]);
      MergeSorted([q[0]], StableSort(q[1..]));
      MergeHas([q[0]], StableSort(q[1..]));
      assert q == [q[0]] + q[1..];
    }
  }

  /** And tickets of one stamp keep their order. */
  lemma {:induction false} SortIsStable(q: Queue, stamp: int)
    ensures OfStamp(StableSort(q), stamp) == OfStamp(q, stamp)
  {
    if q != [] {
      SortIsStable(q[1..], stamp);
      SortSorts(q[1..]);
      InsertIsStable(q[0], StableSort(q[1..]), stamp);
    }
  }

  /** The tickets with one stamp, in order. */
  function OfStamp(q: Queue, stamp: int): Queue {
    if q == [] then [] else One(q[0], q[0].startTime == stamp) + OfStamp(q[1..], stamp)
  }

  lemma {:induction false} InsertIsStable(t: MatchTicket, q: Queue, stamp: int)
    ensures OfStamp(Merge([t], q), stamp) == One(t, t.startTime == stamp) + OfStamp(q, stamp)
  {
    assert [t][1..] == [];
    if q != [] {
      if q[0].startTime < t.startTime {
        InsertIsStable(t, q[1..], stamp);
        assert Merge([t], q) == [q[0]] + Merge([t], q[1..]);
        assert ([q[0]] + Merge([t], q[1..]))[1..] == Merge([t], q[1..]);
      } else {
        assert Merge([t], q) == [t] + q;
        assert ([t] + q)[1..] == q;
      }
    }
  }

  function One(t: MatchTicket, keep: bool): Queue { if keep then [t] else [] }

  lemma MergeTakesSecond(p: Queue, q: Queue, t: MatchTicket, keep: bool)
    requires forall i | 0 <= i < |p| :: t.startTime < p[i].startTime
    ensures Merge(p, One(t, keep) + q) == One(t, keep) + Merge(p, q)
  {
    var tq := One(t, keep) + q;
    if keep { assert tq[1..] == q; } else { assert tq == q; }
    if p == [] { MergeNone(q); MergeNone(tq); }
  }

  lemma MergeTakesFirst(p: Queue, q: Queue, t: MatchTicket, keep: bool)
    requires forall i | 0 <= i < |q| :: t.startTime <= q[i].startTime
    ensures Merge(One(t, keep) + p, q) == One(t, keep) + Merge(p, q)
  {
    var tp := One(t, keep) + p;
    if keep { assert tp[1..] == p; } else { assert tp == p; }
    if q == [] { MergeNone(p); MergeNone(tp); }
  }

  predicate Keeps(lo: int, hi: int, out: set<MatchTicket>, t: MatchTicket) { lo <= t.aggression <= hi && t !in out }

  lemma WithinCons(t: MatchTicket, q: Queue, lo: int, hi: int, out: set<MatchTicket>)
    ensures Within([t] + q, lo, hi, out) == One(t, Keeps(lo, hi, out, t)) + Within(q, lo, hi, out)
  {
    WithinAppend([t], q, lo, hi, out);
    WithinOne(t, lo, hi, out);
  }

  lemma WithinFrom(q: Queue, lo: int, hi: int, out: set<MatchTicket>, p: MatchTicket)
    requires Sorted(q) && q != []
    ensures Within(q, lo, hi, out) == One(q[0], Keeps(lo, hi, out, q[0])) + Within(q[1..], lo, hi, out)
    ensures p.startTime <= q[0].startTime ==>
      forall i | 0 <= i < |Within(q, lo, hi, out)| :: p.startTime <= Within(q, lo, hi, out)[i].startTime
    ensures p.startTime < q[0].startTime ==>
      forall i | 0 <= i < |Within(q, lo, hi, out)| :: p.startTime < Within(q, lo, hi, out)[i].startTime
  {
    assert q == [q[0]] + q[1..];
    WithinCons(q[0], q[1..], lo, hi, out);
    forall i | 0 <= i < |Within(q, lo, hi, out)| ensures q[0].startTime <= Within(q, lo, hi, out)[i].startTime {
      WithinHas(q, lo, hi, out, Within(q, lo, hi, out)[i]);
    }
  }

  lemma MergeNone(p: Queue)
    ensures Merge(p, []) == p && Merge([], p) == p
  {}

  /** Filtering commutes with merging. */
  lemma {:induction false} WithinMerge(p: Queue, q: Queue, lo: int, hi: int, out: set<MatchTicket>)
    requires Sorted(p) && Sorted(q)
    ensures Within(Merge(p, q), lo, hi, out) == Merge(Within(p, lo, hi, out), Within(q, lo, hi, out))
    decreases |p| + |q|
  {
    if p == [] || q == [] {
      MergeNone(p);
      MergeNone(q);
      MergeNone(Within(p, lo, hi, out));
      MergeNone(Within(q, lo, hi, out));
    } else if q[0].startTime < p[0].startTime {
      WithinMerge(p, q[1..], lo, hi, out);
      WithinCons(q[0], Merge(p, q[1..]), lo, hi, out);
      WithinFrom(p, lo, hi, out, q[0]);
      WithinFrom(q, lo, hi, out, q[0]);
      MergeTakesSecond(Within(p, lo, hi, out), Within(q[1..], lo, hi, out), q[0], Keeps(lo, hi, out, q[0]));
    } else {
      WithinMerge(p[1..], q, lo, hi, out);
      WithinCons(p[0], Merge(p[1..], q), lo, hi, out);
      WithinFrom(p, lo, hi, out, p[0]);
      WithinFrom(q, lo, hi, out, p[0]);
      MergeTakesFirst(Within(p[1..], lo, hi, out), Within(q, lo, hi, out), p[0], Keeps(lo, hi, out, p[0]));
    }
  }

  /** Appending the arrivals to a bucket gives the bucket of the merged queue exactly when none of them is
      older than a ticket of the same aggression already queued. */
  lemma BucketAgreesIff(q: Queue, arrivals: Queue, a: int)
    requires Sorted(q) && Sorted(arrivals)
    ensures Within(Merge(q, arrivals), a, a, {}) == Within(q, a, a, {}) + Within(arrivals, a, a, {})
      <==> forall t, u | t in q && u in arrivals && t.aggression == a && u.aggression == a :: t.startTime <= u.startTime
  {
    var queued, added := Within(q, a, a, {}), Within(arrivals, a, a, {});
    WithinMerge(q, arrivals, a, a, {});
    WithinSorted(q, a, a, {});
    WithinSorted(arrivals, a, a, {});
    MergeIsConcatIff(queued, added);
    if Merge(queued, added) == queued + added {
      forall t, u | t in q && u in arrivals && t.aggression == a && u.aggression == a
        ensures t.startTime <= u.startTime
      {
        WithinHas(q, a, a, {}, t);
        WithinHas(arrivals, a, a, {}, u);
      }
    } else {
      var t, u :| t in queued && u in added && t.startTime > u.startTime;
      WithinHas(q, a, a, {}, t);
      WithinHas(arrivals, a, a, {}, u);
    }
  }

  lemma MergeIsConcatIff(p: Queue, q: Queue)
    requires Sorted(p) && Sorted(q)
    ensures Merge(p, q) == p + q <==> forall t, u | t in p && u in q :: t.startTime <= u.startTime
  {
    if Merge(p, q) == p + q {
      MergeSorted(p, q);
      forall t, u | t in p && u in q ensures t.startTime <= u.startTime {
        var i :| 0 <= i < |p| && p[i] == t;
        var j :| 0 <= j < |q| && q[j] == u;
        assert (p + q)[i] == t && (p + q)[|p| + j] == u;
      }
    }
    if forall t, u | t in p && u in q :: t.startTime <= u.startTime {
      forall i, j | 0 <= i < j < |p + q| ensures (p + q)[i].startTime <= (p + q)[j].startTime {
        if i < |p| <= j { assert (p + q)[i] in p && (p + q)[j] in q; }
      }
      MergeInOrder(p, q);
    }
  }
}
