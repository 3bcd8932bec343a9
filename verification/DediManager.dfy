/** Main's side: one object per Dedicated process, and the manager that spreads groups over them. */
module DediManagers {
  import opened CapacityModel
  import opened Sets

  class M2DSession {
    var allocatedPlayers: int
    var state: Phase
    var tempMatchPkts: seq<Packet>
    // What has been written to the process's socket.
    ghost var sent: seq<Packet>

    ghost function View(): Side reads this { Side(allocatedPlayers, state, tempMatchPkts, sent) }

    constructor ()
      ensures View() == Side(0, Initializing, [], [])
    {
      allocatedPlayers, state, tempMatchPkts, sent := 0, Initializing, [], [];
    }

    /** Becoming ready sends nothing: groups queued until now wait for the next allocation. */
    method BindSocket()
      modifies this`state
      ensures View() == old(View()).(phase := Ready)
    {
      state := Ready;
    }

    method FlushPendingTickets()
      modifies this`tempMatchPkts, this`sent
      ensures View() == Flushed(old(View()))
    {
      var i := 0;
      while i < |tempMatchPkts|
        invariant 0 <= i <= |tempMatchPkts| && tempMatchPkts == old(tempMatchPkts)
          && sent == old(sent) + tempMatchPkts[..i]
      {
        sent := sent + [tempMatchPkts[i]];
        i := i + 1;
      }
      assert tempMatchPkts[..i] == tempMatchPkts;
      tempMatchPkts := [];
    }

    method AllocatePlayers(size: nat, pkt: Packet) returns (ok: bool)
      modifies this
      ensures ok == Takes(old(View()), size) && View() == AfterAllocate(old(View()), size, pkt)
    {
      if MAX_PLAYER_PER_PROCESS - allocatedPlayers >= size && state != Terminated {
        allocatedPlayers := allocatedPlayers + size;
        tempMatchPkts := tempMatchPkts + [pkt];
        if state == Ready { FlushPendingTickets(); }
        return true;
      }
      return false;
    }

    method ReleasePlayers(count: nat)
      modifies this`allocatedPlayers
      ensures View() == AfterRelease(old(View()), count)
    {
      allocatedPlayers := allocatedPlayers - count;
      if allocatedPlayers < 0 { allocatedPlayers := 0; }
    }
  }

  ghost predicate SomeoneTakes(sides: map<int, Side>, size: nat) {
    exists p <- sides :: Takes(sides[p], size)
  }

  lemma SameSides(got: map<int, Side>, want: map<int, Side>)
    requires got.Keys == want.Keys && forall q <- got :: got[q] == want[q]
    ensures got == want
  {
    forall q | q in got ensures got[q] == want[q] {}
  }

  class DediManager {
    var dediSessions: map<int, M2DSession>

    /** No two processes share a session object. */
    ghost predicate Valid() reads this {
      forall p, q | p in dediSessions && q in dediSessions && p != q :: dediSessions[p] != dediSessions[q]
    }

    constructor ()
      ensures Valid() && dediSessions == map[]
    {
      dediSessions := map[];
    }

    /** What Main counts and has sent, process by process. */
    ghost function Sides(): map<int, Side> reads this, dediSessions.Values {
      map p | p in dediSessions :: dediSessions[p].View()
    }

    /** Offers the group to one process after the other until one takes it. */
    method FindAvailableSessionAndDistributePlayerGroup(size: nat, pkt: Packet) returns (ok: bool, ghost chosen: int)
      requires Valid()
      modifies dediSessions.Values
      ensures ok <==> SomeoneTakes(old(Sides()), size)
      ensures ok ==> chosen in old(Sides()) && Takes(old(Sides())[chosen], size)
      ensures ok ==> Sides() == old(Sides())[chosen := AfterAllocate(old(Sides())[chosen], size, pkt)]
      ensures !ok ==> Sides() == old(Sides())
    {
      var todo := dediSessions.Keys;
      ok, chosen := false, NONE;
      while todo != {}
        invariant todo <= dediSessions.Keys
        invariant forall p <- dediSessions :: dediSessions[p].View() == old(Sides())[p]
        invariant forall p <- dediSessions | p !in todo :: !Takes(old(Sides())[p], size)
        decreases todo
      {
        SomeMember(todo);
        var p: int :| p in todo;
        ok := dediSessions[p].AllocatePlayers(size, pkt);
        if ok {
          chosen := p;
          forall q | q in dediSessions
            ensures Sides()[q] == old(Sides())[chosen := AfterAllocate(old(Sides())[chosen], size, pkt)][q]
          {}
          return;
        }
        todo := todo - {p};
      }
      forall q | q in dediSessions ensures Sides()[q] == old(Sides())[q] {}
    }

    /** Starting a process: a failed fork gives -1, and a dead child is never waited for, so its pid is not
        given out again. */
    method SpawnSingleServer(forked: int) returns (pid: int)
      requires Valid() && forked !in dediSessions
      modifies this`dediSessions
      ensures Valid() && pid == (if forked < 0 then NONE else forked)
      ensures forked < 0 ==> dediSessions == old(dediSessions)
      ensures forked >= 0 ==>
        forked in dediSessions && dediSessions == old(dediSessions)[forked := dediSessions[forked]]
      ensures forked >= 0 ==>
        fresh(dediSessions[forked]) && dediSessions[forked].View() == Side(0, Initializing, [], [])
    {
      if forked < 0 { return NONE; }
      var session := new M2DSession();
      dediSessions := dediSessions[forked := session];
      pid := forked;
    }

    /** A group goes to exactly one process: one that can take it, or else a new one. */
    method DistributePlayerGroup(size: nat, pkt: Packet, forked: int) returns (ok: bool, ghost chosen: int)
      requires Valid() && forked !in dediSessions
      modifies this`dediSessions, dediSessions.Values
      ensures Valid()
      ensures var before := old(Sides()); var found := SomeoneTakes(before, size);
        && (ok <==> found || (forked >= 0 && size <= MAX_PLAYER_PER_PROCESS))
        && (found ==> chosen in before && Takes(before[chosen], size))
        && (found ==> Sides() == before[chosen := AfterAllocate(before[chosen], size, pkt)])
        && (!found && forked < 0 ==> Sides() == before)
        && (!found && forked >= 0 ==>
          Sides() == before[forked := AfterAllocate(Side(0, Initializing, [], []), size, pkt)])
    {
      ok, chosen := FindAvailableSessionAndDistributePlayerGroup(size, pkt);
      if ok { return; }
      ok, chosen := StartWith(size, pkt, forked);
    }

    /** A new process, which takes the group while it starts. */
    method StartWith(size: nat, pkt: Packet, forked: int) returns (ok: bool, ghost chosen: int)
      requires Valid() && forked !in dediSessions
      modifies this`dediSessions
      ensures Valid() && ok == (forked >= 0 && size <= MAX_PLAYER_PER_PROCESS)
      ensures Sides() == if forked < 0 then old(Sides())
        else old(Sides())[forked := AfterAllocate(Side(0, Initializing, [], []), size, pkt)]
    {
      var pid := SpawnSingleServer(forked);
      chosen := pid;
      if pid == NONE { return false, NONE; }
      ok := dediSessions[pid].AllocatePlayers(size, pkt);
      assert dediSessions[pid].View() == AfterAllocate(Side(0, Initializing, [], []), size, pkt);
      assert forall q <- dediSessions | q != pid :: dediSessions[q].View() == old(Sides())[q];
      ghost var want := old(Sides())[forked := AfterAllocate(Side(0, Initializing, [], []), size, pkt)];
      forall q | q in dediSessions ensures q in want && Sides()[q] == want[q] {}
      SameSides(Sides(), want);
    }
  }
}
