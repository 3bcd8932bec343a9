/** The aggro and authority state of a hostile NPC: as values, and as the object that updates them. */
module HostileNpc {

  const NO_TARGET := -1

  datatype Npc = Npc(aggro: int, target: int, minAggro: int, maxAggro: int)

  datatype RequestResult = REJECTED | AGGRO_CHANGED | AUTHORITY_CHANGED

  function Clamp(x: int, lo: int, hi: int): int {
    if x < lo then lo else if x > hi then hi else x
  }

  predicate IsAuthority(n: Npc, player: int) { player != NO_TARGET && player == n.target }

  function WithAggro(n: Npc, aggro: int, target: int): Npc {
    var a := Clamp(aggro, n.minAggro, n.maxAggro);
    if a == n.minAggro || target == NO_TARGET then n.(aggro := n.minAggro, target := NO_TARGET)
    else n.(aggro := a, target := target)
  }

  predicate AcceptsAggroRequest(n: Npc, requester: int) { IsAuthority(n, requester) }

  predicate AcceptsAuthorityRequest(n: Npc, requester: int, aggro: int) {
    requester != NO_TARGET && Clamp(aggro, n.minAggro, n.maxAggro) > n.aggro
  }

  function Released(n: Npc): Npc { WithAggro(n, n.minAggro, NO_TARGET) }

  /** aggro is MIN exactly when nobody has authority; otherwise nobody could ever take an NPC left at MAX. */
  ghost predicate NpcOk(n: Npc) {
    && n.minAggro <= n.aggro <= n.maxAggro
    && (n.aggro == n.minAggro <==> n.target == NO_TARGET)
  }

  lemma RequestsKeep(n: Npc, requester: int, aggro: int)
    requires NpcOk(n)
    ensures NpcOk(WithAggro(n, aggro, requester)) && NpcOk(Released(n))
  {}

  /** Authority passes straight from one player to another only on strictly higher aggro. */
  lemma TakeoverNeedsMore(n: Npc, requester: int, aggro: int)
    requires NpcOk(n) && AcceptsAuthorityRequest(n, requester, aggro)
    ensures var n' := WithAggro(n, aggro, requester);
      n'.target == requester && n'.aggro > n.aggro && n'.aggro > n.minAggro
  {}

  class HostileNPC {
    const minAggro: int
    const maxAggro: int
    var aggro: int
    var targetId: int

    ghost function View(): Npc reads this { Npc(aggro, targetId, minAggro, maxAggro) }

    constructor (minAggro: int, maxAggro: int)
      requires minAggro <= maxAggro
      ensures View() == Npc(minAggro, NO_TARGET, minAggro, maxAggro) && NpcOk(View())
    {
      this.minAggro, this.maxAggro := minAggro, maxAggro;
      aggro, targetId := minAggro, NO_TARGET;
    }

    method SetAggroInternal(newAggro: int, newTarget: int)
      modifies this
      ensures View() == WithAggro(old(View()), newAggro, newTarget)
    {
      var a := Clamp(newAggro, minAggro, maxAggro);
      if a == minAggro || newTarget == NO_TARGET {
        aggro := minAggro;
        targetId := NO_TARGET;
        return;
      }
      aggro := a;
      targetId := newTarget;
    }

    method ApplyAccepted(newAggro: int, requester: int) returns (r: RequestResult)
      modifies this
      ensures View() == WithAggro(old(View()), newAggro, requester)
      ensures r == if targetId != old(targetId) then AUTHORITY_CHANGED else AGGRO_CHANGED
    {
      var before := targetId;
      SetAggroInternal(newAggro, requester);
      r := if targetId != before then AUTHORITY_CHANGED else AGGRO_CHANGED;
    }

    /** The authority's own change of aggro; naming the minimum gives authority back. */
    method ApplyAggroRequest(requester: int, newAggro: int) returns (r: RequestResult)
      modifies this
      ensures r == REJECTED <==> !AcceptsAggroRequest(old(View()), requester)
      ensures View() == if r == REJECTED then old(View()) else WithAggro(old(View()), newAggro, requester)
      ensures r == AUTHORITY_CHANGED <==> targetId != old(targetId)
    {
      if !(requester != NO_TARGET && requester == targetId) { return REJECTED; }
      r := ApplyAccepted(newAggro, requester);
    }

    /** Anyone's bid for authority: it must exceed the current aggro after clamping. */
    method ApplyAuthorityRequest(requester: int, newAggro: int) returns (r: RequestResult)
      modifies this
      ensures r == REJECTED <==> !AcceptsAuthorityRequest(old(View()), requester, newAggro)
      ensures View() == if r == REJECTED then old(View()) else WithAggro(old(View()), newAggro, requester)
      ensures r == AUTHORITY_CHANGED <==> targetId != old(targetId)
    {
      if requester == NO_TARGET { return REJECTED; }
      if Clamp(newAggro, minAggro, maxAggro) <= aggro { return REJECTED; }
      r := ApplyAccepted(newAggro, requester);
    }

    method ReleaseAuthority() returns (released: bool)
      modifies this
      ensures released <==> old(targetId) != NO_TARGET
      ensures View() == if released then Released(old(View())) else old(View())
    {
      if targetId == NO_TARGET { return false; }
      SetAggroInternal(minAggro, NO_TARGET);
      released := true;
    }
  }
}
