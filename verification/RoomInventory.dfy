/** The slots behind the things: what the room model counts as a multiset, the inventory keeps slot by slot.  Each
    operation on a player's slots and those of the open container is an exchange between the two, with what it
    fires or spills spent. */
module RoomInventory {
  import opened SessionModel
  import opened RoomModel
  import opened RoomRuns
  import I = InventoryModel
  import R = InventoryRuns
  import L = RoomLoot

  function Copies(s: I.Slot): L.Items {
    if s.blueprint != 0 && s.quantity > 0 then multiset{}[s.blueprint := s.quantity] else multiset{}
  }

  /** The things in a row of slots. */
  function Bag(slots: seq<I.Slot>): L.Items {
    if slots == [] then multiset{} else Bag(slots[..|slots| - 1]) + Copies(slots[|slots| - 1])
  }

  /** What an operation uses up: the magazine it had no room for, or one round. */
  function Used(slots: I.World, op: R.Op): L.Items
    requires R.InReach(slots, op)
  {
    match op
    case Equip(src, p) =>
      if I.EquipWeaponDeny(slots, src) == I.OK && I.Spills(slots, p) then Copies(slots[I.Mag(p)]) else multiset{}
    case Unequip(dst, p) =>
      if I.UnequipWeaponDeny(slots, dst, p) == I.OK && I.Spills(I.Swap(slots, dst, I.Gun(p)), p)
      then Copies(slots[I.Mag(p)]) else multiset{}
    case Shoot(p) => if !slots[I.Mag(p)].IsEmpty() then multiset{slots[I.Mag(p)].blueprint} else multiset{}
    case _ => multiset{}
  }

  // ---- A multiset and its totals ----

  lemma CopiesHas(s: I.Slot, b: int)
    requires I.SlotOk(s)
    ensures Copies(s)[b] == if b > 0 then I.Qty(s, b) else 0
  {}

  lemma {:induction false} BagHas(slots: seq<I.Slot>, b: int)
    requires forall i | 0 <= i < |slots| :: I.SlotOk(slots[i])
    ensures Bag(slots)[b] == if b > 0 then I.Total(slots, b) else 0
  {
    if slots != [] {
      BagHas(slots[..|slots| - 1], b);
      CopiesHas(slots[|slots| - 1], b);
    }
  }

  lemma UsedHas(slots: I.World, op: R.Op, b: int)
    requires I.WorldOk(slots) && R.InReach(slots, op)
    ensures Used(slots, op)[b] == if b > 0 then R.Lost(slots, op, b) else 0
  {
    match op
    case Equip(_, p) => CopiesHas(slots[I.Mag(p)], b);
    case Unequip(_, p) => CopiesHas(slots[I.Mag(p)], b);
    case _ =>
  }

  /** The slots and what was used up hold what the slots held before. */
  ghost predicate Balances(slots: I.World, slots': I.World, used: L.Items) {
    && |slots| == |slots'| >= I.BOX
    && Bag(slots'[..I.BOX]) + used + Bag(slots'[I.BOX..]) == Bag(slots[..I.BOX]) + Bag(slots[I.BOX..])
  }

  /** The player's slots and the container's, before and after. */
  lemma Balanced(slots: I.World, op: R.Op)
    requires I.WorldOk(slots) && R.InReach(slots, op)
    ensures Balances(slots, R.Apply(slots, op), Used(slots, op))
  {
    var slots' := R.Apply(slots, op);
    R.ApplyKeeps(slots, op);
    forall b: int
      ensures (Bag(slots'[..I.BOX]) + Used(slots, op) + Bag(slots'[I.BOX..]))[b]
        == (Bag(slots[..I.BOX]) + Bag(slots[I.BOX..]))[b]
    {
      InTwoParts(slots, b);
      InTwoParts(slots', b);
      UsedHas(slots, op, b);
      if b > 0 { R.ApplyConserves(slots, op, b); }
    }
  }

  lemma InTwoParts(slots: I.World, b: int)
    requires I.WorldOk(slots)
    ensures Bag(slots[..I.BOX])[b] + Bag(slots[I.BOX..])[b] == if b > 0 then I.Total(slots, b) else 0
  {
    BagHas(slots[..I.BOX], b);
    BagHas(slots[I.BOX..], b);
    assert slots == slots[..I.BOX] + slots[I.BOX..];
    if b > 0 { R.TotalConcat(slots[..I.BOX], slots[I.BOX..], b); }
  }

  // ---- Operations as steps of the room ----

  /** slots is what session id has in reach: its own slots, and behind them those of the container it has open. */
  ghost predicate Shows(w: L.World, id: int, slots: I.World) {
    && KeysAgree(w.room) && id in w.room.sessions && IsActiveState(w.room.sessions[id]) && |slots| >= I.BOX
    && w.room.sessions[id].items == Bag(slots[..I.BOX])
    && (|slots| > I.BOX ==>
          && w.room.hold.open[id] != NO_CONTAINER && w.room.hold.open[id] in w.loot
          && w.loot[w.room.hold.open[id]] == Bag(slots[I.BOX..]))
  }

  /** From the slots before to those after, with what was used up. */
  function Steps(id: int, slots: I.World, slots': I.World, used: L.Items): seq<L.Step>
    requires |slots| == |slots'| >= I.BOX
  {
    if |slots| > I.BOX
    then [L.Exchange(id, Bag(slots'[..I.BOX]) + used, Bag(slots'[I.BOX..]))] + [L.Spend(id, used)]
    else [L.Spend(id, used)]
  }

  function StepsOf(id: int, slots: I.World, op: R.Op): seq<L.Step>
    requires R.InReach(slots, op)
  {
    Steps(id, slots, R.Apply(slots, op), Used(slots, op))
  }

  /** The world with other things in the session's hands and in the container it has open. */
  function Holding(w: L.World, id: int, mine: L.Items, theirs: L.Items, open: bool): L.World
    requires id in w.room.sessions && id in w.room.hold.open
  {
    L.World(w.room.(sessions := w.room.sessions[id := w.room.sessions[id].(items := mine)]),
            if open then w.loot[w.room.hold.open[id] := theirs] else w.loot)
  }

  lemma NextUse(r: Room, id: int, items: L.Items)
    requires KeysAgree(r) && id in r.sessions && IsActiveState(r.sessions[id])
    ensures Next(r, UseItems(id, items)) == r.(sessions := r.sessions[id := r.sessions[id].(items := items)])
  {}

  lemma ExchangeIs(w: L.World, id: int, mine: L.Items, theirs: L.Items)
    requires KeysAgree(w.room) && L.CanExchange(w, id, mine, theirs)
    ensures L.Moved(w, L.Exchange(id, mine, theirs)) == Holding(w, id, mine, theirs, true)
  {
    NextUse(w.room, id, mine);
  }

  lemma SpendIs(w: L.World, id: int, used: L.Items)
    requires KeysAgree(w.room) && L.CanSpend(w, id, used)
    ensures L.Moved(w, L.Spend(id, used)) == Holding(w, id, w.room.sessions[id].items - used, multiset{}, false)
  {
    NextUse(w.room, id, w.room.sessions[id].items - used);
  }

  lemma OneStep(w: L.World, s: L.Step)
    requires KeysAgree(w.room)
    ensures L.WorldAfter(w, [s]) == L.Moved(w, s) && L.LostAlong(w, [s]) == L.Lost(w, s)
  {
    assert [s][..0] == [];
  }

  lemma TwoSteps(w: L.World, s: L.Step, t: L.Step)
    requires KeysAgree(w.room)
    ensures L.WorldAfter(w, [s] + [t]) == L.Moved(L.Moved(w, s), t)
    ensures L.LostAlong(w, [s] + [t]) == L.Lost(w, s) + L.Lost(L.Moved(w, s), t)
  {
    assert ([s] + [t])[..1] == [s];
    OneStep(w, s);
  }

  lemma SpendLast(w: L.World, id: int, mine: L.Items, used: L.Items)
    requires KeysAgree(w.room) && id in w.room.sessions && IsActiveState(w.room.sessions[id])
    requires w.room.sessions[id].items == mine + used
    ensures L.CanSpend(w, id, used) && L.Moved(w, L.Spend(id, used)) == Holding(w, id, mine, multiset{}, false)
  {
    assert mine + used - used == mine;
    SpendIs(w, id, used);
  }

  lemma HoldingTwice(w: L.World, id: int, a: L.Items, theirs: L.Items, mine: L.Items)
    requires KeysAgree(w.room) && id in w.room.sessions
    ensures Holding(Holding(w, id, a, theirs, true), id, mine, multiset{}, false) == Holding(w, id, mine, theirs, true)
  {}

  lemma HoldingShows(w: L.World, id: int, slots: I.World, slots': I.World)
    requires Shows(w, id, slots) && |slots'| == |slots|
    ensures Shows(Holding(w, id, Bag(slots'[..I.BOX]), Bag(slots'[I.BOX..]), |slots| > I.BOX), id, slots')
  {}

  lemma ExchangeThenSpend(w: L.World, id: int, mine: L.Items, theirs: L.Items, used: L.Items)
    requires KeysAgree(w.room) && L.CanExchange(w, id, mine + used, theirs)
    ensures var steps := [L.Exchange(id, mine + used, theirs)] + [L.Spend(id, used)];
      L.WorldAfter(w, steps) == Holding(w, id, mine, theirs, true) && L.LostAlong(w, steps) == used
  {
    ExchangeIs(w, id, mine + used, theirs);
    SpendLast(Holding(w, id, mine + used, theirs, true), id, mine, used);
    HoldingTwice(w, id, mine + used, theirs, mine);
    TwoSteps(w, L.Exchange(id, mine + used, theirs), L.Spend(id, used));
  }

  lemma SpendAlone(w: L.World, id: int, mine: L.Items, used: L.Items)
    requires KeysAgree(w.room) && id in w.room.sessions && IsActiveState(w.room.sessions[id])
    requires w.room.sessions[id].items == mine + used
    ensures L.WorldAfter(w, [L.Spend(id, used)]) == Holding(w, id, mine, multiset{}, false)
    ensures L.LostAlong(w, [L.Spend(id, used)]) == used
  {
    SpendLast(w, id, mine, used);
    OneStep(w, L.Spend(id, used));
  }

  lemma OwnBalance(slots: I.World, slots': I.World, used: L.Items)
    requires Balances(slots, slots', used) && |slots| == I.BOX
    ensures Bag(slots[..I.BOX]) == Bag(slots'[..I.BOX]) + used
  {
    assert slots[I.BOX..] == [] && slots'[I.BOX..] == [];
    var before, now := Bag(slots[..I.BOX]), Bag(slots'[..I.BOX]) + used;
    assert now + multiset{} == now && before + multiset{} == before;
  }

  lemma ChangeIsSteps(w: L.World, id: int, slots: I.World, slots': I.World, used: L.Items)
    requires Shows(w, id, slots) && Balances(slots, slots', used)
    ensures var steps := Steps(id, slots, slots', used);
      && L.WorldAfter(w, steps) == Holding(w, id, Bag(slots'[..I.BOX]), Bag(slots'[I.BOX..]), |slots| > I.BOX)
      && L.LostAlong(w, steps) == used
  {
    if |slots| > I.BOX {
      ExchangeThenSpend(w, id, Bag(slots'[..I.BOX]), Bag(slots'[I.BOX..]), used);
    } else {
      OwnBalance(slots, slots', used);
      SpendAlone(w, id, Bag(slots'[..I.BOX]), used);
    }
  }

  /** Each operation on the slots, accepted or not, is an exchange between the player and the open container and
      the spending of what it uses up: after those steps of the room, the slots still show what it holds, and
      nothing else in the room has changed. */
  lemma OperationIsExchange(w: L.World, id: int, slots: I.World, op: R.Op)
    requires Shows(w, id, slots) && I.WorldOk(slots) && R.InReach(slots, op)
    ensures var slots', steps := R.Apply(slots, op), StepsOf(id, slots, op);
      && L.WorldAfter(w, steps) == Holding(w, id, Bag(slots'[..I.BOX]), Bag(slots'[I.BOX..]), |slots| > I.BOX)
      && Shows(L.WorldAfter(w, steps), id, slots') && L.LostAlong(w, steps) == Used(slots, op)
  {
    Balanced(slots, op);
    ChangeIsSteps(w, id, slots, R.Apply(slots, op), Used(slots, op));
    HoldingShows(w, id, slots, R.Apply(slots, op));
  }

  // ---- The container of a dead player ----

  /** What a dead player's container is filled with is all the player had, slot by slot. */
  lemma DropIsEverything(slots: I.World)
    requires I.WorldOk(slots)
    ensures Bag(R.NonEmpties(R.DropOrder(slots))) == Bag(slots[..I.BOX])
  {
    var dropped := R.NonEmpties(R.DropOrder(slots));
    NonEmptiesAreOk(R.DropOrder(slots));
    forall b: int ensures Bag(dropped)[b] == Bag(slots[..I.BOX])[b] {
      BagHas(dropped, b);
      BagHas(slots[..I.BOX], b);
      if b > 0 { R.DropKeepsAll(slots, b); }
    }
  }

  lemma {:induction false} NonEmptiesAreOk(slots: seq<I.Slot>)
    requires forall i | 0 <= i < |slots| :: I.SlotOk(slots[i])
    ensures forall i | 0 <= i < |R.NonEmpties(slots)| :: I.SlotOk(R.NonEmpties(slots)[i])
  {
    if slots != [] { NonEmptiesAreOk(slots[..|slots| - 1]); }
  }
}
