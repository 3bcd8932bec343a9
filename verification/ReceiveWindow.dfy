/** The reliable receive window of a session: the highest sequence seen plus a 32-bit field of the
    ones just below it (bit 0 is highest-1, bit 31 is highest-32). */
module ReceiveWindow {
  import opened UInt32

  datatype Window = Window(hasReceived: bool, highest: u32, bits: u32)

  const EMPTY := Window(false, 0, 0)

  predicate BitAt(bits: u32, d: int) {
    1 <= d <= 32 && Bit(bits, d - 1)
  }

  /** The sequences an acknowledgement (ack, bits) vouches for: ack itself and ack-1-i for every set bit i. */
  predicate Covers(ack: u32, bits: u32, s: u32) {
    s == ack || BitAt(bits, Minus(ack, s))
  }

  predicate Accepts(w: Window, s: u32) {
    if !w.hasReceived || s > w.highest then true
    else if s == w.highest then false
    else w.highest - s <= 32 && !BitAt(w.bits, w.highest - s)
  }

  function Receive(w: Window, s: u32): Window {
    if !w.hasReceived then Window(true, s, 0)
    else if s > w.highest then
      var diff := s - w.highest;
      Window(true, s, if diff >= 32 then 0 else WithBit(ShiftLeft(w.bits, diff), diff - 1))
    else if Accepts(w, s) then w.(bits := WithBit(w.bits, w.highest - s - 1))
    else w
  }

  /** The window after the arrivals xs, in order. */
  function Run(xs: seq<u32>): Window {
    if xs == [] then EMPTY else Receive(Run(xs[..|xs| - 1]), xs[|xs| - 1])
  }

  /** The arrivals that were accepted, in order; the others were dropped as duplicates or as too old. */
  function Accepted(xs: seq<u32>): seq<u32> {
    if xs == [] then []
    else
      var before := xs[..|xs| - 1];
      var x := xs[|xs| - 1];
      if Accepts(Run(before), x) then Accepted(before) + [x] else Accepted(before)
  }

  lemma BitsAfterReceive(w: Window, s: u32, d: int)
    requires w.hasReceived && 1 <= d <= 32
    ensures s > w.highest ==>
      (BitAt(Receive(w, s).bits, d) <==>
        s - w.highest < 32 && (d == s - w.highest || BitAt(w.bits, d - (s - w.highest))))
    ensures s <= w.highest ==>
      (BitAt(Receive(w, s).bits, d) <==> BitAt(w.bits, d) || (Accepts(w, s) && d == w.highest - s))
  {
    WordIsPow2();
    if s > w.highest {
      var diff := s - w.highest;
      if diff < 32 {
        var shifted := ShiftLeft(w.bits, diff);
        BitOfWithBit(shifted, diff - 1, 32, d - 1);
        BitOfShift(w.bits, diff, d - 1);
      } else {
        BitOfZero(d - 1);
      }
    } else if Accepts(w, s) {
      BitOfWithBit(w.bits, w.highest - s - 1, 32, d - 1);
    }
  }

  // ---- What the window knows about the log of accepted sequences ----

  /** The field has the bit that stands for x. */
  predicate Marks(w: Window, x: int) {
    BitAt(w.bits, w.highest - x)
  }

  /** Within 31 of the highest the bitfield is exactly the accepted set; bit 31 claims only what was
      accepted, and no bit stands for a sequence below 0. */
  ghost predicate Refines(w: Window, log: seq<u32>) {
    && (w.hasReceived <==> log != [])
    && (!w.hasReceived ==> w == EMPTY)
    && (w.hasReceived ==> w.highest in log)
    && (forall x <- log :: x <= w.highest)
    && (forall x: int | Marks(w, x) :: x in log)
    && (forall x <- log | 1 <= w.highest - x <= 31 :: Marks(w, x))
  }

  lemma MarksAfterReceive(w: Window, s: u32, x: int)
    requires w.hasReceived
    ensures s > w.highest ==>
      (Marks(Receive(w, s), x) <==> s - w.highest < 32 && s - x <= 32 && (x == w.highest || Marks(w, x)))
    ensures s <= w.highest ==> (Marks(Receive(w, s), x) <==> Marks(w, x) || (Accepts(w, s) && x == s && x != w.highest))
  {
    var h' := Receive(w, s).highest;
    if 1 <= h' - x <= 32 { BitsAfterReceive(w, s, h' - x); }
  }

  lemma NoMarks(w: Window, x: int)
    requires w.bits == 0
    ensures !Marks(w, x)
  {
    if 1 <= w.highest - x { BitOfZero(w.highest - x - 1); }
  }

  lemma ReceiveRefines(w: Window, log: seq<u32>, s: u32)
    requires Refines(w, log)
    ensures Refines(Receive(w, s), if Accepts(w, s) then log + [s] else log)
  {
    var w' := Receive(w, s);
    forall x: int ensures !w.hasReceived ==> !Marks(w', x) {
      if !w.hasReceived { NoMarks(w', x); }
    }
    if w.hasReceived {
      forall x: int
        ensures s > w.highest ==>
          (Marks(w', x) <==> s - w.highest < 32 && s - x <= 32 && (x == w.highest || Marks(w, x)))
        ensures s <= w.highest ==> (Marks(w', x) <==> Marks(w, x) || (Accepts(w, s) && x == s && x != w.highest))
      {
        MarksAfterReceive(w, s, x);
      }
    }
  }

  lemma {:induction false} RunRefines(xs: seq<u32>)
    ensures Refines(Run(xs), Accepted(xs))
  {
    if xs == [] {
      forall x: int ensures !Marks(EMPTY, x) { NoMarks(EMPTY, x); }
    } else {
      RunRefines(xs[..|xs| - 1]);
      ReceiveRefines(Run(xs[..|xs| - 1]), Accepted(xs[..|xs| - 1]), xs[|xs| - 1]);
    }
  }

  /** Every sequence an endpoint acknowledges is one it accepted. */
  lemma AckedWasAccepted(xs: seq<u32>, s: u32)
    requires xs != []
    requires Covers(Run(xs).highest, Run(xs).bits, s)
    ensures s in Accepted(xs)
  {
    RunRefines(xs);
    CoversIsMarks(Run(xs), Accepted(xs), s);
  }

  lemma CoversIsMarks(w: Window, log: seq<u32>, s: u32)
    requires Refines(w, log)
    ensures Covers(w.highest, w.bits, s) <==> s == w.highest || Marks(w, s)
  {
    if s > w.highest {
      assert Minus(w.highest, s) == w.highest - (s - WORD);
      assert Marks(w, s - WORD) <==> BitAt(w.bits, Minus(w.highest, s));
    }
  }

  // ---- How often a sequence can be accepted ----

  ghost predicate CountsBounded(w: Window, log: seq<u32>) {
    forall x: u32 ::
      && multiset(log)[x] <= 2
      && (w.hasReceived && w.highest - x <= 31 ==> multiset(log)[x] <= 1)
      && (w.hasReceived && w.highest - x == 32 && !Marks(w, x) ==> multiset(log)[x] <= 1)
  }

  /** No sequence is ever accepted three times. */
  lemma {:induction false} AcceptedAtMostTwice(xs: seq<u32>)
    ensures CountsBounded(Run(xs), Accepted(xs))
  {
    if xs != [] {
      var before := xs[..|xs| - 1];
      var w, s := Run(before), xs[|xs| - 1];
      var log: seq<u32> := Accepted(before);
      AcceptedAtMostTwice(before);
      RunRefines(before);
      if w.hasReceived {
        forall x: u32 ensures multiset(log)[x] > 0 <==> x in log {}
        forall x: u32
          ensures s <= w.highest ==>
            (Marks(Receive(w, s), x) <==> Marks(w, x) || (Accepts(w, s) && x == s && x != w.highest))
        {
          MarksAfterReceive(w, s, x);
        }
      }
    }
  }

  predicate Advances(w: Window, s: u32) {
    !w.hasReceived || s > w.highest
  }

  /** The window as it was just before the current highest sequence arrived. */
  function BeforeTop(xs: seq<u32>): Window {
    if xs == [] then EMPTY
    else
      var before := xs[..|xs| - 1];
      if Advances(Run(before), xs[|xs| - 1]) then Run(before) else BeforeTop(before)
  }

  /** The latest advance was by exactly 32: it took the branch that clears the field, so nothing
      stands for the old highest although it is still inside the window. */
  predicate LeftHole(xs: seq<u32>) {
    BeforeTop(xs).hasReceived && BeforeTop(xs).highest + 32 == Run(xs).highest
  }

  ghost predicate HoleIsTheOnlyGap(xs: seq<u32>) {
    var w, log := Run(xs), Accepted(xs);
    && (forall x: u32 :: x in log && w.highest - x == 32 && !Marks(w, x) ==> LeftHole(xs))
    && (LeftHole(xs) ==> w.highest - 32 in log && (Marks(w, w.highest - 32) <==> multiset(log)[w.highest - 32] == 2))
  }

  lemma {:induction false} HoleInvariant(xs: seq<u32>)
    ensures HoleIsTheOnlyGap(xs)
  {
    if xs != [] {
      var before := xs[..|xs| - 1];
      HoleInvariant(before);
      RunRefines(before);
      AcceptedAtMostTwice(before);
      RunRefines(xs);
      var top := if Advances(Run(before), xs[|xs| - 1]) then Run(before) else BeforeTop(before);
      HoleStep(Run(before), Accepted(before), BeforeTop(before), xs[|xs| - 1], top);
    }
  }

  /** top is the window before the latest advance. */
  predicate Hole(w: Window, top: Window) { top.hasReceived && top.highest + 32 == w.highest }

  ghost predicate OnlyGap(w: Window, log: seq<u32>, top: Window) {
    && (forall x: u32 :: x in log && w.highest - x == 32 && !Marks(w, x) ==> Hole(w, top))
    && (Hole(w, top) ==> w.highest - 32 in log && (Marks(w, w.highest - 32) <==> multiset(log)[w.highest - 32] == 2))
  }

  lemma HoleStep(w: Window, log: seq<u32>, top: Window, s: u32, top': Window)
    requires Refines(w, log) && CountsBounded(w, log) && OnlyGap(w, log, top)
    requires top' == if Advances(w, s) then w else top
    requires Refines(Receive(w, s), if Accepts(w, s) then log + [s] else log)
    ensures OnlyGap(Receive(w, s), if Accepts(w, s) then log + [s] else log, top')
  {
    if w.hasReceived {
      if s > w.highest { HoleOnAdvance(w, log, s); } else { HoleOnFill(w, log, top, s); }
    }
  }

  lemma HoleOnAdvance(w: Window, log: seq<u32>, s: u32)
    requires w.hasReceived && s > w.highest && Refines(w, log) && CountsBounded(w, log)
    requires Refines(Receive(w, s), log + [s])
    ensures OnlyGap(Receive(w, s), log + [s], w)
  {
    var w' := Receive(w, s);
    assert multiset(log)[w.highest] > 0 <==> w.highest in log;
    forall x: u32 ensures Marks(w', x) <==> s - w.highest < 32 && s - x <= 32 && (x == w.highest || Marks(w, x)) {
      MarksAfterReceive(w, s, x);
    }
  }

  lemma HoleOnFill(w: Window, log: seq<u32>, top: Window, s: u32)
    requires w.hasReceived && s <= w.highest && Refines(w, log) && CountsBounded(w, log) && OnlyGap(w, log, top)
    ensures OnlyGap(Receive(w, s), if Accepts(w, s) then log + [s] else log, top)
  {
    forall x: u32 ensures multiset(log)[x] > 0 <==> x in log {}
    forall x: u32 ensures Marks(Receive(w, s), x) <==> Marks(w, x) || (Accepts(w, s) && x == s && x != w.highest) {
      MarksAfterReceive(w, s, x);
    }
  }

  /** A sequence already accepted is accepted again exactly when it was the highest before an advance of
      exactly 32, that advance is still the latest one, and this has not happened yet. */
  lemma ReplayedIff(xs: seq<u32>, s: u32)
    ensures s in Accepted(xs) && Accepts(Run(xs), s)
      <==> LeftHole(xs) && s == BeforeTop(xs).highest && multiset(Accepted(xs))[s] == 1
  {
    HoleInvariant(xs);
    RunRefines(xs);
    AcceptedAtMostTwice(xs);
    ReplayNeedsHole(Run(xs), Accepted(xs), LeftHole(xs), s);
  }

  /** hole says that the old highest, 32 behind, has no bit to stand for it. */
  lemma ReplayNeedsHole(w: Window, log: seq<u32>, hole: bool, s: u32)
    requires Refines(w, log) && multiset(log)[s] <= 2
    requires forall x: u32 :: x in log && w.highest - x == 32 && !Marks(w, x) ==> hole
    requires hole ==> w.highest - 32 in log && (Marks(w, w.highest - 32) <==> multiset(log)[w.highest - 32] == 2)
    ensures s in log && Accepts(w, s) <==> hole && s == w.highest - 32 && multiset(log)[s] == 1
  {
    assert multiset(log)[s] > 0 <==> s in log;
    if s in log { ReplayNeedsGap(w, log, s); }
  }

  /** A faithful window accepts a logged sequence again only where it shows nothing at distance 32. */
  lemma ReplayNeedsGap(w: Window, log: seq<u32>, s: u32)
    requires Refines(w, log) && s in log
    ensures Accepts(w, s) <==> w.highest - s == 32 && !Marks(w, s)
  {}

  /** Arrival i repeats the sequence an exact-32 advance jumped from, before any further advance. */
  predicate HitsHole(xs: seq<u32>, i: nat)
    requires i < |xs|
  {
    LeftHole(xs[..i]) && xs[i] == BeforeTop(xs[..i]).highest
  }

  ghost predicate AtMostOnce(log: seq<u32>) {
    forall x: u32 :: multiset(log)[x] <= 1
  }

  lemma OneMoreArrival(before: seq<u32>, s: u32)
    ensures AtMostOnce(Accepted(before + [s]))
      <==> AtMostOnce(Accepted(before)) && !(LeftHole(before) && s == BeforeTop(before).highest)
  {
    var xs := before + [s];
    assert xs[..|xs| - 1] == before;
    ReplayedIff(before, s);
    var log: seq<u32> := Accepted(before);
    assert multiset(log)[s] > 0 <==> s in log;
    if LeftHole(before) && s == BeforeTop(before).highest {
      HoleInvariant(before);
    }
    if !AtMostOnce(log) {
      var x: u32 :| multiset(log)[x] > 1;
      assert multiset(Accepted(xs))[x] > 1;
    } else if Accepts(Run(before), s) {
      assert multiset(Accepted(xs))[s] == multiset(log)[s] + 1;
    }
  }

  /** A run accepts every sequence at most once if and only if no arrival hits the hole. */
  lemma {:induction false} AtMostOnceIff(xs: seq<u32>)
    ensures AtMostOnce(Accepted(xs)) <==> forall i | 0 <= i < |xs| :: !HitsHole(xs, i)
  {
    if xs != [] {
      var n := |xs| - 1;
      var before := xs[..n];
      AtMostOnceIff(before);
      OneMoreArrival(before, xs[n]);
      assert xs == before + [xs[n]];
      assert HitsHole(xs, n) <==> LeftHole(before) && xs[n] == BeforeTop(before).highest;
      forall i | 0 <= i < n ensures HitsHole(xs, i) <==> HitsHole(before, i) {
        assert before[..i] == xs[..i];
      }
      assert (forall i | 0 <= i < n :: !HitsHole(xs, i)) <==> (forall i | 0 <= i < n :: !HitsHole(before, i));
    }
  }

  /** In particular a run that never advances by exactly 32 delivers at most once. */
  lemma NoAdvanceOf32IsAtMostOnce(xs: seq<u32>)
    requires forall i | 0 <= i < |xs| :: Run(xs[..i]).hasReceived ==> xs[i] != Run(xs[..i]).highest + 32
    ensures AtMostOnce(Accepted(xs))
  {
    forall i | 0 <= i < |xs| ensures !HitsHole(xs, i) { NoHole(xs, i); }
    AtMostOnceIff(xs);
  }

  lemma {:induction false} NoHole(xs: seq<u32>, n: nat)
    requires n <= |xs|
    requires forall i | 0 <= i < |xs| :: Run(xs[..i]).hasReceived ==> xs[i] != Run(xs[..i]).highest + 32
    ensures !LeftHole(xs[..n])
  {
    if n > 0 {
      NoHole(xs, n - 1);
      assert xs[..n][..n - 1] == xs[..n - 1];
    }
  }

  /** The duplicate delivery of the exact-32 edge, on the shortest run that shows it. */
  lemma DuplicateDelivery()
    ensures Accepted([1, 33, 1]) == [1, 33, 1]
  {
    assert [1, 33, 1][..2] == [1, 33] && [1, 33][..1] == [1] && [1][..0] == [];
    assert Run([1]) == Window(true, 1, 0);
    assert Run([1, 33]) == Window(true, 33, 0);
    BitOfZero(31);
  }

  // ---- What falls out of the window is lost for good ----

  lemma {:induction false} HighestNeverFalls(xs: seq<u32>, ys: seq<u32>)
    requires xs != []
    ensures Run(xs + ys).hasReceived && Run(xs).hasReceived && Run(xs).highest <= Run(xs + ys).highest
    decreases |ys|
  {
    RunRefines(xs);
    if ys == [] {
      assert xs + ys == xs;
    } else {
      var n := |ys| - 1;
      HighestNeverFalls(xs, ys[..n]);
      assert (xs + ys)[..|xs + ys| - 1] == xs + ys[..n];
    }
  }

  /** Once the highest is more than 32 past a sequence, accepted or not, no later arrival of it is accepted
      and no later acknowledgement vouches for it. */
  lemma LostForever(xs: seq<u32>, ys: seq<u32>, s: u32)
    requires xs != [] && Run(xs).highest > s + 32
    ensures !Accepts(Run(xs + ys), s) && !Covers(Run(xs + ys).highest, Run(xs + ys).bits, s)
    ensures s in Accepted(xs + ys) <==> s in Accepted(xs)
    decreases |ys|
  {
    HighestNeverFalls(xs, ys);
    RunRefines(xs + ys);
    CoversIsMarks(Run(xs + ys), Accepted(xs + ys), s);
    if ys == [] {
      assert xs + ys == xs;
    } else {
      var n := |ys| - 1;
      LostForever(xs, ys[..n], s);
      assert (xs + ys)[..|xs + ys| - 1] == xs + ys[..n];
    }
  }

  /** Which accepted sequences the acknowledgement built from the window vouches for: those up to 31 behind,
      and at 32 those that still have their bit. */
  lemma AckedIff(xs: seq<u32>, s: u32)
    requires s in Accepted(xs)
    ensures Covers(Run(xs).highest, Run(xs).bits, s)
      <==> Run(xs).highest - s <= 31 || (Run(xs).highest - s == 32 && Marks(Run(xs), s))
  {
    RunRefines(xs);
    CoversIsMarks(Run(xs), Accepted(xs), s);
  }
}
