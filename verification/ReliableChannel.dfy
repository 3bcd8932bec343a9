/** Two endpoints exchanging reliable and unreliable packets over a network that loses, duplicates
    and reorders.  Both ends run the server's header path: deduplicate, then process the piggybacked
    acknowledgement.  Reliable sequences do not wrap within a session, as the design assumes. */
module ReliableChannel {
  import opened UInt32
  import opened ReceiveWindow

  type u16 = x: int | 0 <= x < 0x1_0000 witness 0

  datatype Packet = Packet(reliable: bool, rSeq: u32, uSeq: u16, ack: u32, ackBits: u32)

  /** The latest unreliable sequence; a packet counts as newer when the signed 16-bit difference is positive. */
  datatype Newest = Newest(hasReceived: bool, highest: u16)

  predicate AcceptsUnreliable(u: Newest, seqNum: u16) {
    !u.hasReceived || 0 < (seqNum - u.highest) % 0x1_0000 < 0x8000
  }

  /** One end: its counters, its receive windows, the packets it still retransmits, and, as history, every
      reliable sequence that arrived and every one it stopped retransmitting on its own initiative. */
  datatype Endpoint = Endpoint(
    sendRSeq: u32, sendUSeq: u16, window: Window, newest: Newest,
    pending: map<u32, Packet>, arrivals: seq<u32>, cleared: set<u32>)

  const START := Endpoint(0, 0, EMPTY, Newest(false, 0), map[], [], {})

  /** Dropping from pending everything the acknowledgement covers. */
  function Acknowledge<V>(pending: map<u32, V>, ack: u32, bits: u32): map<u32, V> {
    map s | s in pending && !Covers(ack, bits, s) :: pending[s]
  }

  function KeepOnly<V>(pending: map<u32, V>, keep: u32): map<u32, V> {
    map s | s in pending && s == keep && keep != 0 :: pending[s]
  }

  /** HandleClientPacket up to the payload: a packet its filter rejects is dropped before its acknowledgement is
      read. */
  function HandlePacket(e: Endpoint, p: Packet): Endpoint {
    if p.reliable then
      var seen := e.(arrivals := e.arrivals + [p.rSeq]);
      if !Accepts(e.window, p.rSeq) then seen
      else seen.(window := Receive(e.window, p.rSeq), pending := Acknowledge(e.pending, p.ack, p.ackBits))
    else if AcceptsUnreliable(e.newest, p.uSeq) then
      e.(newest := Newest(true, p.uSeq), pending := Acknowledge(e.pending, p.ack, p.ackBits))
    else e
  }

  predicate CanSend(e: Endpoint, reliable: bool) {
    reliable ==> e.sendRSeq < WORD - 1
  }

  function MakePacket(e: Endpoint, reliable: bool): Packet
    requires CanSend(e, reliable)
  {
    if reliable then Packet(true, e.sendRSeq + 1, 0, e.window.highest, e.window.bits)
    else Packet(false, 0, (e.sendUSeq + 1) % 0x1_0000, e.window.highest, e.window.bits)
  }

  function AfterSend(e: Endpoint, reliable: bool): Endpoint
    requires CanSend(e, reliable)
  {
    var p := MakePacket(e, reliable);
    if reliable then e.(sendRSeq := p.rSeq, pending := e.pending[p.rSeq := p])
    else e.(sendUSeq := p.uSeq)
  }

  predicate WasSent(e: Endpoint, s: u32) { 1 <= s <= e.sendRSeq }

  function AcceptedBy(e: Endpoint): seq<u32> { Accepted(e.arrivals) }

  // ---- The system ----

  type Side = i: int | 0 <= i < 2 witness 0

  /** net[i] holds the packets that may still arrive at endpoint i: delivering one leaves it there, so it can
      arrive again. */
  datatype System = System(ends: seq<Endpoint>, net: seq<set<Packet>>)

  datatype Action =
    | Send(i: Side, reliable: bool)
    | Retransmit(i: Side, s: u32)
    | Deliver(i: Side, p: Packet)
    | Lose(i: Side, p: Packet)
    | Clear(i: Side, keep: u32)

  predicate WellFormed(m: System) { |m.ends| == 2 && |m.net| == 2 }

  predicate Enabled(m: System, a: Action)
    requires WellFormed(m)
  {
    match a
    case Send(i, reliable) => CanSend(m.ends[i], reliable)
    case Retransmit(i, s) => s in m.ends[i].pending
    case Deliver(i, p) => p in m.net[i]
    case Lose(i, p) => p in m.net[i]
    case Clear(i, keep) => true
  }

  function Step(m: System, a: Action): (m': System)
    requires WellFormed(m) && Enabled(m, a)
    ensures WellFormed(m')
  {
    match a
    case Send(i, reliable) =>
      System(m.ends[i := AfterSend(m.ends[i], reliable)],
             m.net[1 - i := m.net[1 - i] + {MakePacket(m.ends[i], reliable)}])
    case Retransmit(i, s) => m.(net := m.net[1 - i := m.net[1 - i] + {m.ends[i].pending[s]}])
    case Deliver(i, p) => m.(ends := m.ends[i := HandlePacket(m.ends[i], p)])
    case Lose(i, p) => m.(net := m.net[i := m.net[i] - {p}])
    case Clear(i, keep) =>
      var e := m.ends[i];
      var kept := KeepOnly(e.pending, keep);
      m.(ends := m.ends[i := e.(pending := kept, cleared := e.cleared + (e.pending.Keys - kept.Keys))])
  }

  const INITIAL := System([START, START], [{}, {}])

  ghost predicate IsRun(b: seq<System>, actions: seq<Action>) {
    && |b| == |actions| + 1
    && b[0] == INITIAL
    && (forall k | 0 <= k < |actions| ::
      WellFormed(b[k]) && Enabled(b[k], actions[k]) && b[k + 1] == Step(b[k], actions[k]))
  }

  /** Whatever the acknowledgement in p covers, the sender of p had accepted (0 is never a sequence). */
  ghost predicate AckIsSound(p: Packet, accepted: seq<u32>) {
    forall s: u32 | s != 0 && Covers(p.ack, p.ackBits, s) :: s in accepted
  }

  ghost predicate SentBy(p: Packet, e: Endpoint) {
    && (p.reliable ==> 1 <= p.rSeq <= e.sendRSeq)
    && AckIsSound(p, AcceptedBy(e))
  }

  ghost predicate EndInvariant(me: Endpoint, peer: Endpoint, inbound: set<Packet>) {
    && me.window == Run(me.arrivals)
    && (forall s <- me.arrivals :: 1 <= s <= peer.sendRSeq)
    && (forall p <- inbound :: SentBy(p, peer))
    && (forall s <- me.pending ::
      1 <= s <= me.sendRSeq && me.pending[s].reliable && me.pending[s].rSeq == s && SentBy(me.pending[s], me))
    && (forall s: u32 | WasSent(me, s) :: s in me.pending || s in AcceptedBy(peer) || s in me.cleared)
  }

  ghost predicate Invariant(m: System) {
    && WellFormed(m)
    && EndInvariant(m.ends[0], m.ends[1], m.net[0])
    && EndInvariant(m.ends[1], m.ends[0], m.net[1])
  }

  lemma FreshAckIsSound(e: Endpoint)
    requires e.window == Run(e.arrivals)
    ensures forall s: u32 | s != 0 && Covers(e.window.highest, e.window.bits, s) :: s in AcceptedBy(e)
  {
    RunRefines(e.arrivals);
    forall s: u32 | s != 0 && Covers(e.window.highest, e.window.bits, s) ensures s in AcceptedBy(e) {
      CoversIsMarks(e.window, AcceptedBy(e), s);
    }
  }

  lemma {:induction false} AcceptedArrived(xs: seq<u32>)
    ensures forall s <- Accepted(xs) :: s in xs
  {
    if xs != [] { AcceptedArrived(xs[..|xs| - 1]); }
  }

  /** Handling a packet never retracts an acceptance, and takes out of pending only what the peer accepted. */
  lemma HandleKeeps(e: Endpoint, p: Packet, peer: Endpoint)
    requires e.window == Run(e.arrivals) && SentBy(p, peer) && 0 !in e.pending
    ensures var e' := HandlePacket(e, p);
      && e'.window == Run(e'.arrivals)
      && (forall s <- AcceptedBy(e) :: s in AcceptedBy(e'))
      && (forall s <- e.pending | s !in e'.pending :: s in AcceptedBy(peer))
      && (forall s <- e'.pending :: s in e.pending && e'.pending[s] == e.pending[s])
      && e'.sendRSeq == e.sendRSeq && e'.cleared == e.cleared
  {
    if p.reliable {
      var xs := e.arrivals + [p.rSeq];
      assert xs[..|xs| - 1] == e.arrivals;
    }
  }

  lemma SoundLater(p: Packet, e: Endpoint, e': Endpoint)
    requires SentBy(p, e) && e.sendRSeq <= e'.sendRSeq
    requires forall s <- AcceptedBy(e) :: s in AcceptedBy(e')
    ensures SentBy(p, e')
  {}

  lemma DeliverKeeps(me: Endpoint, peer: Endpoint, inbound: set<Packet>, outbound: set<Packet>, p: Packet)
    requires EndInvariant(me, peer, inbound) && EndInvariant(peer, me, outbound) && p in inbound
    ensures EndInvariant(HandlePacket(me, p), peer, inbound)
    ensures EndInvariant(peer, HandlePacket(me, p), outbound)
  {
    var me' := HandlePacket(me, p);
    HandleKeeps(me, p, peer);
    forall q <- outbound ensures SentBy(q, me') { SoundLater(q, me, me'); }
    forall s <- me'.pending ensures SentBy(me'.pending[s], me') { SoundLater(me.pending[s], me, me'); }
  }

  lemma SendKeeps(me: Endpoint, peer: Endpoint, inbound: set<Packet>, outbound: set<Packet>, reliable: bool)
    requires EndInvariant(me, peer, inbound) && EndInvariant(peer, me, outbound) && CanSend(me, reliable)
    ensures EndInvariant(AfterSend(me, reliable), peer, inbound)
    ensures EndInvariant(peer, AfterSend(me, reliable), outbound + {MakePacket(me, reliable)})
  {
    var me', p := AfterSend(me, reliable), MakePacket(me, reliable);
    FreshAckIsSound(me);
    assert SentBy(p, me');
    forall q <- outbound ensures SentBy(q, me') { SoundLater(q, me, me'); }
    forall s <- me.pending ensures SentBy(me.pending[s], me') { SoundLater(me.pending[s], me, me'); }
  }

  lemma NetworkKeeps(me: Endpoint, peer: Endpoint, inbound: set<Packet>, outbound: set<Packet>, p: Packet)
    requires EndInvariant(me, peer, inbound) && EndInvariant(peer, me, outbound)
    ensures EndInvariant(me, peer, inbound - {p})
    ensures (exists s :: s in me.pending && p == me.pending[s]) ==> EndInvariant(peer, me, outbound + {p})
  {}

  lemma ClearKeeps(me: Endpoint, peer: Endpoint, inbound: set<Packet>, outbound: set<Packet>, keep: u32)
    requires EndInvariant(me, peer, inbound) && EndInvariant(peer, me, outbound)
    ensures var kept := KeepOnly(me.pending, keep);
      var me' := me.(pending := kept, cleared := me.cleared + (me.pending.Keys - kept.Keys));
      EndInvariant(me', peer, inbound) && EndInvariant(peer, me', outbound)
  {
    var kept := KeepOnly(me.pending, keep);
    var me' := me.(pending := kept, cleared := me.cleared + (me.pending.Keys - kept.Keys));
    forall q <- outbound ensures SentBy(q, me') { SoundLater(q, me, me'); }
    forall s <- kept ensures SentBy(kept[s], me') { SoundLater(me.pending[s], me, me'); }
  }

  /** Only the two ends and the two directions around the acting side matter to a step. */
  lemma FromSide(m: System, i: Side)
    requires WellFormed(m)
    ensures Invariant(m) <==>
      EndInvariant(m.ends[i], m.ends[1 - i], m.net[i]) && EndInvariant(m.ends[1 - i], m.ends[i], m.net[1 - i])
  {}

  lemma StepKeepsInvariant(m: System, a: Action)
    requires Invariant(m) && Enabled(m, a)
    ensures Invariant(Step(m, a))
  {
    var i := a.i;
    var me, peer, inbound, outbound := m.ends[i], m.ends[1 - i], m.net[i], m.net[1 - i];
    FromSide(m, i);
    FromSide(Step(m, a), i);
    match a
    case Send(_, reliable) => SendKeeps(me, peer, inbound, outbound, reliable);
    case Deliver(_, p) => DeliverKeeps(me, peer, inbound, outbound, p);
    case Retransmit(_, s) => NetworkKeeps(me, peer, inbound, outbound, me.pending[s]);
    case Lose(_, p) => NetworkKeeps(me, peer, inbound, outbound, p);
    case Clear(_, keep) => ClearKeeps(me, peer, inbound, outbound, keep);
  }

  lemma {:induction false} RunKeepsInvariant(b: seq<System>, actions: seq<Action>, k: nat)
    requires IsRun(b, actions) && k < |b|
    ensures Invariant(b[k])
  {
    if k > 0 {
      RunKeepsInvariant(b, actions, k - 1);
      StepKeepsInvariant(b[k - 1], actions[k - 1]);
    }
  }

  /** In every state of every run, each sequence ever sent is still retransmitted, or was accepted by the
      peer, or was discarded by the sender itself; and nothing is accepted that was never sent. */
  lemma NothingSilentlyLost(b: seq<System>, actions: seq<Action>, k: nat, i: Side)
    requires IsRun(b, actions) && k < |b|
    ensures WellFormed(b[k])
    ensures forall s: u32 :: WasSent(b[k].ends[i], s) ==>
      s in b[k].ends[i].pending || s in AcceptedBy(b[k].ends[1 - i]) || s in b[k].ends[i].cleared
    ensures forall s: u32 | s in AcceptedBy(b[k].ends[1 - i]) :: WasSent(b[k].ends[i], s)
  {
    RunKeepsInvariant(b, actions, k);
    AcceptedArrived(b[k].ends[1 - i].arrivals);
  }

  /** A sequence leaves pending on the arrival of a packet only if the peer accepted it, however stale,
      duplicated or reordered that packet is. */
  lemma AckSoundness(b: seq<System>, actions: seq<Action>, k: nat, s: u32)
    requires IsRun(b, actions) && k < |actions| && actions[k].Deliver?
    requires WellFormed(b[k]) && s in b[k].ends[actions[k].i].pending
    ensures WellFormed(b[k + 1])
    ensures s !in b[k + 1].ends[actions[k].i].pending ==> s in AcceptedBy(b[k].ends[1 - actions[k].i])
  {
    RunKeepsInvariant(b, actions, k);
    var i := actions[k].i;
    HandleKeeps(b[k].ends[i], actions[k].p, b[k].ends[1 - i]);
  }

  /** Over any run an endpoint hands each reliable sequence to its handler at most twice, and at most
      once exactly when no arrival hits the hole left by an advance of 32. */
  lemma DeliveredAtMostTwice(b: seq<System>, actions: seq<Action>, k: nat, i: Side)
    requires IsRun(b, actions) && k < |b|
    ensures WellFormed(b[k])
    ensures forall s: u32 :: multiset(AcceptedBy(b[k].ends[i]))[s] <= 2
    ensures AtMostOnce(AcceptedBy(b[k].ends[i]))
      <==> forall j | 0 <= j < |b[k].ends[i].arrivals| :: !HitsHole(b[k].ends[i].arrivals, j)
  {
    RunKeepsInvariant(b, actions, k);
    AcceptedAtMostTwice(b[k].ends[i].arrivals);
    AtMostOnceIff(b[k].ends[i].arrivals);
  }

  // ---- What one packet does ----

  /** b lies d ahead of a, counted in 16 bits, and less than half the way round. */
  predicate Ahead(a: u16, b: u16, d: int) { 1 <= d < 0x8000 && b == (a + d) % 0x1_0000 }

  /** An unreliable packet passes if it is the first one or ahead of the newest. */
  lemma UnreliableIff(u: Newest, seqNum: u16)
    ensures AcceptsUnreliable(u, seqNum) <==> (u.hasReceived ==> exists d :: Ahead(u.highest, seqNum, d))
  {
    var d := (seqNum - u.highest) % 0x1_0000;
    if AcceptsUnreliable(u, seqNum) && u.hasReceived { assert Ahead(u.highest, seqNum, d); }
    if d :| Ahead(u.highest, seqNum, d) {
      assert u.highest + d < 0x1_0000 ==> seqNum == u.highest + d;
      assert u.highest + d >= 0x1_0000 ==> seqNum == u.highest + d - 0x1_0000;
    }
  }

  /** A packet its filter rejects changes nothing but the history.  One that passes takes out of pending exactly what
      its acknowledgement names, and moves the window or the newest of its own kind only. */
  lemma PacketEffect(e: Endpoint, p: Packet)
    ensures var e' := HandlePacket(e, p);
      var passes := if p.reliable then Accepts(e.window, p.rSeq)
        else !e.newest.hasReceived || 0 < (p.uSeq - e.newest.highest) % 0x1_0000 < 0x8000;
      && e'.sendRSeq == e.sendRSeq && e'.sendUSeq == e.sendUSeq && e'.cleared == e.cleared
      && e'.arrivals == (if p.reliable then e.arrivals + [p.rSeq] else e.arrivals)
      && (forall s: u32 :: s in e'.pending <==>
        s in e.pending && !(passes && (s == p.ack || BitAt(p.ackBits, Minus(p.ack, s)))))
      && (forall s <- e'.pending :: e'.pending[s] == e.pending[s])
      && (if p.reliable then e'.newest == e.newest && e'.window == Receive(e.window, p.rSeq)
          else e'.window == e.window && e'.newest == if passes then Newest(true, p.uSeq) else e.newest)
  {}

  /** Each kind has its own numbering, one up from packet to packet; a reliable packet stays pending until it is
      acknowledged; and every packet carries the window as it is. */
  lemma SendEffect(e: Endpoint, reliable: bool)
    requires CanSend(e, reliable)
    ensures var p, e' := MakePacket(e, reliable), AfterSend(e, reliable);
      && p.reliable == reliable && p.ack == e.window.highest && p.ackBits == e.window.bits
      && (if reliable then
            p.rSeq == e.sendRSeq + 1 == e'.sendRSeq && e' == e.(sendRSeq := e'.sendRSeq, pending := e'.pending)
            && p.rSeq in e'.pending && e'.pending[p.rSeq] == p
            && (forall s: u32 | s != p.rSeq :: s in e'.pending <==> s in e.pending)
            && (forall s <- e.pending | s != p.rSeq :: e'.pending[s] == e.pending[s])
          else p.uSeq == (e.sendUSeq + 1) % 0x1_0000 == e'.sendUSeq && e' == e.(sendUSeq := e'.sendUSeq))
  {}

  /** Discarding spares one sequence; naming 0 spares none. */
  lemma ClearEffect(m: System, i: Side, keep: u32)
    requires WellFormed(m)
    ensures var e, e' := m.ends[i], Step(m, Clear(i, keep)).ends[i];
      && (forall s: u32 :: s in e'.pending <==> s in e.pending && s == keep != 0)
      && (forall s: u32 :: s in e'.cleared <==> s in e.cleared || (s in e.pending && (s != keep || s == 0)))
      && e' == e.(pending := e'.pending, cleared := e'.cleared)
      && (forall s <- e'.pending :: e'.pending[s] == e.pending[s])
  {}

  // ---- Beyond the reach of an acknowledgement ----

  /** me still retransmits s, but the peer is more than 32 past it, and nothing the peer has sent or may send
      again vouches for it.  This is enough to be beyond reach, not needed for it: a packet that does vouch for s
      but that me's filter would drop as old does not help s either. */
  ghost predicate Stranded(me: Endpoint, peer: Endpoint, inbound: set<Packet>, s: u32) {
    && s in me.pending && peer.window.highest > s + 32
    && (forall p <- inbound :: !Covers(p.ack, p.ackBits, s))
    && (forall q <- peer.pending :: !Covers(peer.pending[q].ack, peer.pending[q].ackBits, s))
  }

  lemma FreshAckPassesBy(e: Endpoint, s: u32)
    requires e.window == Run(e.arrivals) && e.window.highest > s + 32
    ensures !Covers(e.window.highest, e.window.bits, s)
  {
    LostForever(e.arrivals, [], s);
    assert e.arrivals + [] == e.arrivals;
  }

  ghost predicate StrandedAt(m: System, i: Side, s: u32) {
    WellFormed(m) && Stranded(m.ends[i], m.ends[1 - i], m.net[i], s)
  }

  lemma HandleNeverFalls(e: Endpoint, p: Packet)
    requires e.window == Run(e.arrivals) && e.arrivals != []
    ensures HandlePacket(e, p).window.highest >= e.window.highest
    ensures forall q <- HandlePacket(e, p).pending :: q in e.pending && HandlePacket(e, p).pending[q] == e.pending[q]
  {
    if p.reliable {
      HighestNeverFalls(e.arrivals, [p.rSeq]);
      assert (e.arrivals + [p.rSeq])[..|e.arrivals|] == e.arrivals;
    }
  }

  lemma OwnStepStays(m: System, a: Action, s: u32)
    requires WellFormed(m) && Enabled(m, a) && StrandedAt(m, a.i, s) && s != 0
    requires a.Clear? ==> a.keep == s
    ensures StrandedAt(Step(m, a), a.i, s)
  {
    match a
    case Deliver(_, p) => OwnHandleStays(m.ends[a.i], m.ends[1 - a.i], m.net[a.i], p, s);
    case Send(_, reliable) => OwnSendStays(m.ends[a.i], m.ends[1 - a.i], m.net[a.i], reliable, s);
    case Clear(_, _) => OwnClearStays(m.ends[a.i], m.ends[1 - a.i], m.net[a.i], s);
    case Retransmit(_, _) =>
    case Lose(_, _) =>
  }

  lemma OwnSendStays(me: Endpoint, peer: Endpoint, inbound: set<Packet>, reliable: bool, s: u32)
    requires Stranded(me, peer, inbound, s) && CanSend(me, reliable)
    ensures Stranded(AfterSend(me, reliable), peer, inbound, s)
  {}

  lemma OwnClearStays(me: Endpoint, peer: Endpoint, inbound: set<Packet>, s: u32)
    requires Stranded(me, peer, inbound, s) && s != 0
    ensures s in KeepOnly(me.pending, s)
  {}

  lemma OwnHandleStays(me: Endpoint, peer: Endpoint, inbound: set<Packet>, p: Packet, s: u32)
    requires Stranded(me, peer, inbound, s) && p in inbound
    ensures Stranded(HandlePacket(me, p), peer, inbound, s)
  {}

  lemma PeerSendStays(me: Endpoint, peer: Endpoint, inbound: set<Packet>, reliable: bool, s: u32)
    requires Stranded(me, peer, inbound, s) && peer.window == Run(peer.arrivals) && CanSend(peer, reliable)
    ensures Stranded(me, AfterSend(peer, reliable), inbound + {MakePacket(peer, reliable)}, s)
  {
    FreshAckPassesBy(peer, s);
  }

  lemma PeerHandleStays(me: Endpoint, peer: Endpoint, inbound: set<Packet>, p: Packet, s: u32)
    requires Stranded(me, peer, inbound, s) && peer.window == Run(peer.arrivals)
    ensures Stranded(me, HandlePacket(peer, p), inbound, s)
  {
    HandleNeverFalls(peer, p);
  }

  lemma PeerStepStays(m: System, a: Action, s: u32)
    requires WellFormed(m) && Enabled(m, a) && StrandedAt(m, 1 - a.i, s)
    requires m.ends[a.i].window == Run(m.ends[a.i].arrivals)
    ensures StrandedAt(Step(m, a), 1 - a.i, s)
  {
    var me, peer, inbound := m.ends[1 - a.i], m.ends[a.i], m.net[1 - a.i];
    match a
    case Send(_, reliable) => PeerSendStays(me, peer, inbound, reliable, s);
    case Deliver(_, p) => PeerHandleStays(me, peer, inbound, p, s);
    case Retransmit(_, _) =>
    case Lose(_, _) =>
    case Clear(_, _) =>
  }

  lemma WindowIsRun(m: System, i: Side)
    requires Invariant(m)
    ensures m.ends[i].window == Run(m.ends[i].arrivals)
  {
    FromSide(m, i);
  }

  lemma StrandedIsSent(m: System, i: Side, s: u32)
    requires Invariant(m) && StrandedAt(m, i, s)
    ensures s != 0
  {
    FromSide(m, i);
  }

  lemma StrandedStays(m: System, a: Action, i: Side, s: u32)
    requires Invariant(m) && Enabled(m, a) && StrandedAt(m, i, s)
    requires a.Clear? && a.i == i ==> a.keep == s
    ensures StrandedAt(Step(m, a), i, s)
  {
    if a.i == i {
      StrandedIsSent(m, i, s);
      OwnStepStays(m, a, s);
    } else {
      WindowIsRun(m, a.i);
      PeerStepStays(m, a, s);
    }
  }

  /** A sequence out of reach of the peer's acknowledgements, accepted or not, is retransmitted until its sender
      itself discards it, whatever else happens. */
  lemma {:induction false} StrandedUntilCleared(b: seq<System>, actions: seq<Action>, k: nat, l: nat, i: Side, s: u32)
    requires IsRun(b, actions) && k <= l < |b| && StrandedAt(b[k], i, s)
    requires forall j | k <= j < l :: actions[j].Clear? && actions[j].i == i ==> actions[j].keep == s
    ensures StrandedAt(b[l], i, s)
  {
    if k < l {
      StrandedUntilCleared(b, actions, k, l - 1, i, s);
      RunKeepsInvariant(b, actions, l - 1);
      StrandedStays(b[l - 1], actions[l - 1], i, s);
    }
  }

  lemma PeerIsNotAhead(me: Endpoint, peer: Endpoint, inbound: set<Packet>, outbound: set<Packet>)
    requires EndInvariant(me, peer, inbound) && EndInvariant(peer, me, outbound)
    ensures peer.window.highest <= me.sendRSeq
  {
    RunRefines(peer.arrivals);
    AcceptedArrived(peer.arrivals);
  }

  /** A sender that keeps at most 32 behind its newest sequence pending never strands one. */
  lemma NewestOnesAreSafe(b: seq<System>, actions: seq<Action>, k: nat, i: Side, s: u32)
    requires IsRun(b, actions) && k < |b|
    ensures WellFormed(b[k]) && (b[k].ends[i].sendRSeq <= s + 32 ==> !StrandedAt(b[k], i, s))
  {
    RunKeepsInvariant(b, actions, k);
    FromSide(b[k], i);
    PeerIsNotAhead(b[k].ends[i], b[k].ends[1 - i], b[k].net[i], b[k].net[1 - i]);
  }

  /** And as long as the sender is at most 31 past a sequence the peer accepted, the next packet of the peer,
      reliable or not, vouches for it. */
  lemma NextPacketAcknowledges(b: seq<System>, actions: seq<Action>, k: nat, i: Side, s: u32, reliable: bool)
    requires IsRun(b, actions) && k < |b| && WellFormed(b[k]) && b[k].ends[i].sendRSeq <= s + 31
    requires s in AcceptedBy(b[k].ends[1 - i]) && CanSend(b[k].ends[1 - i], reliable)
    ensures var p := MakePacket(b[k].ends[1 - i], reliable); Covers(p.ack, p.ackBits, s)
  {
    RunKeepsInvariant(b, actions, k);
    FromSide(b[k], i);
    PeerIsNotAhead(b[k].ends[i], b[k].ends[1 - i], b[k].net[i], b[k].net[1 - i]);
    AckedIff(b[k].ends[1 - i].arrivals, s);
  }

  lemma RunExtends(b: seq<System>, actions: seq<Action>, a: Action)
    requires IsRun(b, actions) && WellFormed(b[|b| - 1]) && Enabled(b[|b| - 1], a)
    ensures IsRun(b + [Step(b[|b| - 1], a)], actions + [a])
  {}

  /** End 0 has sent n reliable packets and has heard nothing; all are on their way. */
  ghost predicate Flooded(m: System, n: nat) {
    && WellFormed(m) && m.ends[1] == START && m.net[0] == {} && m.ends[0].sendRSeq == n < WORD
      && m.ends[0].window == EMPTY
    && forall s: u32 :: 1 <= s <= n ==> s in m.ends[0].pending && Packet(true, s, 0, 0, 0) in m.net[1]
  }

  lemma {:induction false} FloodHappens(n: nat) returns (b: seq<System>, actions: seq<Action>)
    requires n < WORD - 1
    ensures IsRun(b, actions) && Flooded(b[|b| - 1], n)
  {
    if n == 0 {
      b, actions := [INITIAL], [];
    } else {
      b, actions := FloodHappens(n - 1);
      RunExtends(b, actions, Send(0, true));
      b, actions := b + [Step(b[|b| - 1], Send(0, true))], actions + [Send(0, true)];
    }
  }

  /** It does happen: of 34 packets in flight the peer gets the first and the last, and the first, accepted, is
      out of reach. */
  lemma StrandingHappens() returns (b: seq<System>, actions: seq<Action>)
    ensures IsRun(b, actions) && StrandedAt(b[|b| - 1], 0, 1) && 1 in AcceptedBy(b[|b| - 1].ends[1])
  {
    b, actions := FloodHappens(34);
    var first, last := Deliver(1, Packet(true, 1, 0, 0, 0)), Deliver(1, Packet(true, 34, 0, 0, 0));
    var m := Step(b[|b| - 1], first);
    RunExtends(b, actions, first);
    b, actions := b + [m], actions + [first];
    RunExtends(b, actions, last);
    b, actions := b + [Step(m, last)], actions + [last];
    assert m.ends[1].arrivals == [1];
    assert [1][..0] == [] && [1, 34][..1] == [1];
    assert Step(m, last).ends[1].arrivals == [1, 34];
  }
}
