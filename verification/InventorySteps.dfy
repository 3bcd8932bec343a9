/** What single inventory operations do, slot by slot: nothing here is stated through the functions that compute
    the new row.  In the row, 0 to 24 are the inventory, 25 and 26 the primary weapon and its magazine, 27 and 28
    the secondary ones, 29 the armor, and from 30 on the open container. */
module InventorySteps {
  import opened InventoryModel
  import opened InventoryRuns
  import opened PlayerInventories

  predicate Holds(s: Slot) { s.quantity > 0 }

  function GunAt(isPrimary: bool): nat { if isPrimary then 25 else 27 }

  function MagAt(isPrimary: bool): nat { if isPrimary then 26 else 28 }

  // ---- Where an unloaded magazine goes ----

  /** An inventory slot other than x that holds what the magazine holds. */
  predicate Stacks(w: World, x: nat, mag: Slot, k: int)
    requires |w| >= 30
  {
    0 <= k < 25 && k != x && Holds(w[k]) && w[k].blueprint == mag.blueprint
  }

  predicate Free(w: World, x: nat, k: int)
    requires |w| >= 30
  {
    0 <= k < 25 && k != x && !Holds(w[k])
  }

  /** The slot other than x that takes the magazine's rounds: the first with a stack of them, else the first free. */
  ghost predicate Home(w: World, x: nat, mag: Slot, k: int)
    requires |w| >= 30
  {
    Holds(mag) &&
    if exists j :: Stacks(w, x, mag, j) then Stacks(w, x, mag, k) && forall j | Stacks(w, x, mag, j) :: k <= j
    else Free(w, x, k) && forall j | Free(w, x, j) :: k <= j
  }

  /** The told slot, when there is one, is the rounds' home, and without one there is no home. */
  lemma UnloadSlotIsHome(w: World, isPrimary: bool, x: nat, k: int)
    requires |w| >= 30 && (forall i | 0 <= i < |w| :: SlotOk(w[i]))
    requires x < 25 ==> Holds(w[x]) && w[x].blueprint != w[MagAt(isPrimary)].blueprint
    ensures Home(w, x, w[MagAt(isPrimary)], k) <==> k != -1 && k == UnloadSlot(w, isPrimary)
  {
    var mag := w[MagAt(isPrimary)];
    var s, e := FirstStack(w, mag.blueprint, 0), FirstEmpty(w, 0);
    if Holds(mag) {
      if s != -1 { assert Stacks(w, x, mag, s); } else if e != -1 { assert Free(w, x, e); }
      forall j | Stacks(w, x, mag, j) ensures s != -1 && s <= j {}
      forall j | Free(w, x, j) ensures e != -1 && e <= j {}
    }
  }

  /** What an unloading does to every slot. */
  lemma UnloadEffect(w: World, isPrimary: bool, x: nat, i: nat)
    requires |w| >= 30 && (forall j | 0 <= j < |w| :: SlotOk(w[j])) && i < |w|
    requires x < 25 ==> Holds(w[x]) && w[x].blueprint != w[MagAt(isPrimary)].blueprint
    ensures var mag := w[MagAt(isPrimary)];
      Unload(w, isPrimary)[i] ==
        if i == MagAt(isPrimary) then Slot(0, 0)
        else if Home(w, x, mag, i) then Slot(mag.blueprint, w[i].quantity + mag.quantity)
        else w[i]
  {
    UnloadSlotIs(w, isPrimary);
    UnloadElsewhere(w, isPrimary);
    UnloadSlotIsHome(w, isPrimary, x, i);
  }

  // ---- Weapons ----

  predicate IsWeapon(s: Slot) { Holds(s) && s.blueprint in {1, 2, 3} }

  predicate IsArmor(s: Slot) { Holds(s) && s.blueprint in {4, 8} }

  /** Slots x and gun are exchanged, the magazine's rounds go home, and nothing else changes. */
  ghost predicate Rearmed(w: World, w': World, x: nat, isPrimary: bool)
    requires |w| >= 30 && x < |w|
  {
    |w'| == |w| && forall i: nat | i < |w| :: w'[i] == RearmedSlot(w, x, isPrimary, i)
  }

  ghost function RearmedSlot(w: World, x: nat, isPrimary: bool, i: nat): Slot
    requires |w| >= 30 && x < |w| && i < |w|
  {
    var mag := w[MagAt(isPrimary)];
    if i == GunAt(isPrimary) then w[x]
    else if i == x then w[GunAt(isPrimary)]
    else if i == MagAt(isPrimary) then Slot(0, 0)
    else if Home(w, x, mag, i) then Slot(mag.blueprint, w[i].quantity + mag.quantity)
    else w[i]
  }

  lemma MagazineIsNoWeapon(w: World, isPrimary: bool)
    requires WorldOk(w)
    ensures Holds(w[MagAt(isPrimary)]) ==> w[MagAt(isPrimary)].blueprint in {5, 6}
    ensures !Holds(w[MagAt(isPrimary)]) ==> w[MagAt(isPrimary)].blueprint == 0
  {}

  /** Equipping from slot src goes through exactly if a weapon lies there; it then takes the gun's place, the gun, if
      there was one, takes its place, and the gun's magazine is emptied into the inventory; the other weapon, its
      magazine and the armor stay.  Otherwise nothing changes. */
  lemma EquipEffect(w: World, src: nat, isPrimary: bool)
    requires WorldOk(w) && Reachable(w, src)
    ensures var w' := Apply(w, Equip(src, isPrimary));
      if IsWeapon(w[src]) then Rearmed(w, w', src, isPrimary) else w' == w
  {
    if IsWeapon(w[src]) {
      forall i: nat | i < |w|
        ensures Apply(w, Equip(src, isPrimary))[i] == RearmedSlot(w, src, isPrimary, i)
      {
        EquippedSlot(w, src, isPrimary, i);
      }
    }
  }

  lemma EquippedSlot(w: World, src: nat, isPrimary: bool, i: nat)
    requires WorldOk(w) && Reachable(w, src) && i < |w| && IsWeapon(w[src])
    ensures Apply(w, Equip(src, isPrimary))[i] == RearmedSlot(w, src, isPrimary, i)
  {
    MagazineIsNoWeapon(w, isPrimary);
    UnloadEffect(w, isPrimary, src, i);
    UnloadEffect(w, isPrimary, src, src);
    UnloadEffect(w, isPrimary, src, GunAt(isPrimary));
  }

  /** Taking a weapon off into slot dst goes through exactly if there is one and the slot holds another weapon or is
      free while the other hand is not; its magazine is emptied into the other inventory slots.  Otherwise nothing
      changes. */
  lemma UnequipEffect(w: World, dst: nat, isPrimary: bool)
    requires WorldOk(w) && Reachable(w, dst)
    ensures var w' := Apply(w, Unequip(dst, isPrimary));
      if Holds(w[GunAt(isPrimary)]) && (if Holds(w[dst]) then IsWeapon(w[dst]) else Holds(w[GunAt(!isPrimary)]))
      then Rearmed(w, w', dst, isPrimary) else w' == w
  {
    if Holds(w[GunAt(isPrimary)]) && (if Holds(w[dst]) then IsWeapon(w[dst]) else Holds(w[GunAt(!isPrimary)])) {
      forall i: nat | i < |w|
        ensures Apply(w, Unequip(dst, isPrimary))[i] == RearmedSlot(w, dst, isPrimary, i)
      {
        UnequippedSlot(w, Swap(w, dst, GunAt(isPrimary)), dst, isPrimary, i);
      }
    }
  }

  lemma UnequippedSlot(w: World, q: World, dst: nat, isPrimary: bool, i: nat)
    requires WorldOk(w) && Reachable(w, dst) && i < |w|
    requires q == Swap(w, dst, GunAt(isPrimary)) && Holds(w[GunAt(isPrimary)])
    ensures Unload(q, isPrimary)[i] == RearmedSlot(w, dst, isPrimary, i)
  {
    MagazineIsNoWeapon(w, isPrimary);
    UnloadEffect(q, isPrimary, dst, i);
    SameHome(w, q, dst, w[MagAt(isPrimary)], i);
  }

  lemma SameHome(w: World, q: World, x: nat, mag: Slot, k: int)
    requires |w| >= 30 && |q| == |w| && forall i | 0 <= i < 25 && i != x :: q[i] == w[i]
    ensures Home(w, x, mag, k) <==> Home(q, x, mag, k)
  {
    forall j ensures Stacks(w, x, mag, j) <==> Stacks(q, x, mag, j) {}
    forall j ensures Free(w, x, j) <==> Free(q, x, j) {}
  }

  // ---- Armor ----

  ghost predicate Exchanged(w: World, w': World, i: nat, j: nat)
    requires i < |w| && j < |w|
  {
    |w'| == |w| && w'[i] == w[j] && w'[j] == w[i] && forall k | 0 <= k < |w| && k != i && k != j :: w'[k] == w[k]
  }

  /** Armor is worn from a slot exactly if it is armor; what was worn takes its place.  It is taken off into a slot
      exactly if there is some and the slot is free or holds armor. */
  lemma ArmorEffect(w: World, k: nat)
    requires WorldOk(w) && Reachable(w, k)
    ensures var w' := Apply(w, WearArmor(k)); if IsArmor(w[k]) then Exchanged(w, w', k, 29) else w' == w
    ensures var w' := Apply(w, TakeOffArmor(k));
      if Holds(w[29]) && (!Holds(w[k]) || IsArmor(w[k])) then Exchanged(w, w', k, 29) else w' == w
  {}

  // ---- Refusals ----

  /** What each answer to an equipping request says about the slots. */
  lemma EquipAnswers(w: World, src: nat)
    requires WorldOk(w) && src < |w|
    ensures var deny := EquipWeaponDeny(w, src);
      && (deny == SLOT_EMPTY <==> !Holds(w[src])) && (deny == OK <==> IsWeapon(w[src]))
      && (deny == ITEM_TYPE_MISMATCH <==> Holds(w[src]) && !IsWeapon(w[src]))
    ensures var deny := EquipArmorDeny(w, src);
      && (deny == SLOT_EMPTY <==> !Holds(w[src])) && (deny == OK <==> IsArmor(w[src]))
      && (deny == ITEM_TYPE_MISMATCH <==> Holds(w[src]) && !IsArmor(w[src]))
  {}

  /** And to an unequipping one: the last weapon cannot be put into a free slot. */
  lemma UnequipAnswers(w: World, dst: nat, isPrimary: bool)
    requires WorldOk(w) && dst < |w|
    ensures var deny, gun, other := UnequipWeaponDeny(w, dst, isPrimary), w[GunAt(isPrimary)], w[GunAt(!isPrimary)];
      && (deny == SLOT_EMPTY <==> !Holds(gun))
      && (deny == BARE_HANDED <==> Holds(gun) && !Holds(w[dst]) && !Holds(other))
      && (deny == ITEM_TYPE_MISMATCH <==> Holds(gun) && Holds(w[dst]) && !IsWeapon(w[dst]))
      && (deny == OK <==> Holds(gun) && if Holds(w[dst]) then IsWeapon(w[dst]) else Holds(other))
    ensures var deny := UnequipArmorDeny(w, dst);
      && (deny == SLOT_EMPTY <==> !Holds(w[29]))
      && (deny == ITEM_TYPE_MISMATCH <==> Holds(w[29]) && Holds(w[dst]) && !IsArmor(w[dst]))
      && (deny == OK <==> Holds(w[29]) && (!Holds(w[dst]) || IsArmor(w[dst])))
  {}

  /** And to a move, an exchange or a merge: each answer in the order the checks are made. */
  lemma InteractionAnswers(same: bool, start: Slot, end: Slot, kind: Interaction, quantity: int)
    requires SlotOk(start) && SlotOk(end)
    ensures var deny := SlotsDeny(same, start, end, kind, quantity); var fits := 0 < quantity <= start.quantity;
      var fixed := start.blueprint in {1, 2, 3, 4, 8};
      && (deny == SERVER_INTERNAL <==> same)
      && (deny == SLOT_EMPTY <==> !same && !Holds(start))
      && (deny == SLOT_NOT_EMPTY <==> !same && Holds(start) && kind == Get && Holds(end))
      && (deny == SLOT_ALREADY_EMPTY <==> !same && Holds(start) && kind != Get && !Holds(end))
      && (deny == BLUEPRINT_MISMATCH <==>
        !same && Holds(start) && kind == Merge && Holds(end) && start.blueprint != end.blueprint)
      && (deny == ITEM_TYPE_MISMATCH <==>
        !same && Holds(start) && kind == Merge && Holds(end) && start.blueprint == end.blueprint && fixed)
      && (deny == INVALID_QUANTITY <==>
        !same && Holds(start) && !fits
        && ((kind == Get && !Holds(end))
          || (kind == Merge && Holds(end) && start.blueprint == end.blueprint && !fixed)))
      && deny != BARE_HANDED
  {}

  /** A slot with n taken from it. */
  function Rest(s: Slot, n: int): Slot { if s.quantity == n then Slot(0, 0) else Slot(s.blueprint, s.quantity - n) }

  /** The move goes into a free slot, the merge onto more of the same ammunition or goods, the exchange between two
      full ones; nothing else changes, and what is refused changes nothing. */
  lemma ActEffect(w: World, kind: Interaction, start: nat, end: nat, quantity: int)
    requires WorldOk(w) && Reachable(w, start) && Reachable(w, end)
    ensures var w' := Apply(w, Act(kind, start, end, quantity));
      var fits := start != end && 0 < quantity <= w[start].quantity;
      if kind == Exchange && start != end && Holds(w[start]) && Holds(w[end]) then Exchanged(w, w', start, end)
      else if kind == Get && fits && !Holds(w[end]) then
        Moved(w, w', start, end, quantity, Slot(w[start].blueprint, quantity))
      else if kind == Merge && fits && Holds(w[end]) && w[start].blueprint == w[end].blueprint
          && w[start].blueprint !in {1, 2, 3, 4, 8} then
        Moved(w, w', start, end, quantity, Slot(w[end].blueprint, w[end].quantity + quantity))
      else w' == w
  {}

  ghost predicate Moved(w: World, w': World, i: nat, j: nat, n: int, s: Slot)
    requires i < |w| && j < |w|
  {
    |w'| == |w| && w'[i] == Rest(w[i], n) && w'[j] == s && forall k | 0 <= k < |w| && k != i && k != j :: w'[k] == w[k]
  }

  // ---- Shooting and reloading ----

  /** A shot takes one round out of its magazine, if there is one, and touches nothing else. */
  lemma ShotEffect(w: World, isPrimary: bool)
    requires WorldOk(w)
    ensures var w', mag := Apply(w, Shoot(isPrimary)), MagAt(isPrimary);
      && |w'| == |w| && (w' != w <==> Holds(w[mag]))
      && (Holds(w[mag]) ==> w'[mag] == Rest(w[mag], 1))
      && forall k | 0 <= k < |w| && k != mag :: w'[k] == w[k]
  {
    var w', mag := Apply(w, Shoot(isPrimary)), MagAt(isPrimary);
    if Holds(w[mag]) { assert w'[mag] != w[mag]; }
  }

  /** The rounds the weapon fires. */
  function RoundsOf(gun: Slot): nat { if gun.blueprint == 1 then 6 else 5 }

  /** The rounds of one kind in the inventory slots before k. */
  function Supply(w: World, ammo: nat, k: nat): int
    requires k <= 25 <= |w|
  {
    if k == 0 then 0 else Supply(w, ammo, k - 1) + (if w[k - 1].blueprint == ammo then w[k - 1].quantity else 0)
  }

  lemma {:induction false} SupplySplits(w: World, ammo: nat, k: nat)
    requires k <= 25 <= |w|
    ensures Supply(w, ammo, k) + Available(w, ammo, k) == Available(w, ammo, 0)
  {
    if k > 0 { SupplySplits(w, ammo, k - 1); }
  }

  lemma LoadOf(w: World, isPrimary: bool)
    requires WorldOk(w)
    ensures var gun, mag := w[GunAt(isPrimary)], MagAt(isPrimary);
      var ammo, need := RoundsOf(gun), 30 - w[mag].quantity;
      if IsWeapon(gun) then Loadable(w, mag, ammo, 0) && Load(w, isPrimary) == LoadFrom(w, mag, ammo, need, 0)
      else Load(w, isPrimary) == w
  {
    var gun, mag := w[GunAt(isPrimary)], MagAt(isPrimary);
    if IsWeapon(gun) { WeaponIsLoadable(w, isPrimary, mag, RoundsOf(gun)); }
    LoadAs(w, isPrimary, gun, mag, 30 - w[mag].quantity);
  }

  lemma LoadAs(w: World, isPrimary: bool, gun: Slot, mag: nat, need: int)
    requires |w| >= 30 && SlotOk(gun) && gun == w[GunAt(isPrimary)]
    requires mag == MagAt(isPrimary) && need == 30 - w[mag].quantity
    ensures Load(w, isPrimary) == if IsWeapon(gun) then LoadFrom(w, mag, RoundsOf(gun), need, 0) else w
  {
    WeaponsHaveRounds(gun);
  }

  lemma WeaponIsLoadable(w: World, isPrimary: bool, mag: nat, ammo: nat)
    requires WorldOk(w) && IsWeapon(w[GunAt(isPrimary)]) && mag == MagAt(isPrimary)
    requires ammo == RoundsOf(w[GunAt(isPrimary)])
    ensures Loadable(w, mag, ammo, 0)
  {}

  lemma WeaponsHaveRounds(gun: Slot)
    requires SlotOk(gun)
    ensures IsWeapon(gun) <==> !gun.IsEmpty() && HasSpec(gun.blueprint)
    ensures IsWeapon(gun) ==> AmmoType(gun.blueprint) == RoundsOf(gun)
  {}

  /** A reload leaves the weapon's magazine with as many of its own rounds, up to thirty, as it had and the inventory
      has. */
  lemma ReloadFills(w: World, isPrimary: bool)
    requires WorldOk(w)
    ensures var w', gun, mag := Apply(w, Reload(isPrimary)), w[GunAt(isPrimary)], MagAt(isPrimary);
      var want := w[mag].quantity + Supply(w, RoundsOf(gun), 25);
      if IsWeapon(gun) && want > 0 then w'[mag] == Slot(RoundsOf(gun), if want < 30 then want else 30)
      else w' == w
  {
    LoadOf(w, isPrimary);
    if IsWeapon(w[GunAt(isPrimary)]) {
      FillsMagazine(w, MagAt(isPrimary), RoundsOf(w[GunAt(isPrimary)]));
      MagazineOf(w, isPrimary);
    }
  }

  lemma MagazineOf(w: World, isPrimary: bool)
    requires WorldOk(w) && IsWeapon(w[GunAt(isPrimary)])
    ensures w[MagAt(isPrimary)].quantity <= 30
  {}

  lemma FillsMagazine(w: World, mag: nat, ammo: nat)
    requires Loadable(w, mag, ammo, 0) && w[mag].quantity <= 30
    ensures var w', want := LoadFrom(w, mag, ammo, 30 - w[mag].quantity, 0), w[mag].quantity + Supply(w, ammo, 25);
      if want > 0 then w'[mag] == Slot(ammo, if want < 30 then want else 30) else w' == w
  {
    var need := 30 - w[mag].quantity;
    SupplySplits(w, ammo, 25);
    AvailableIsPositive(w, ammo, 0);
    if Available(w, ammo, 0) == 0 { NothingToLoad(w, mag, ammo, need, 0); }
    LoadedMagazine(w, LoadFrom(w, mag, ammo, need, 0), mag, ammo, need);
  }

  lemma LoadedMagazine(w: World, w': World, mag: nat, ammo: nat, need: nat)
    requires Loadable(w, mag, ammo, 0) && w' == LoadFrom(w, mag, ammo, need, 0) && w[mag].quantity == 30 - need
    ensures var want := w[mag].quantity + Available(w, ammo, 0);
      want > 0 ==> w'[mag] == Slot(ammo, if want < 30 then want else 30)
  {
    AvailableIsPositive(w, ammo, 0);
    LoadAmount(w, mag, ammo, need, 0);
    LoadFrame(w, mag, ammo, need, 0);
  }

  /** It touches no other gear, no container and no inventory slot that holds anything else. */
  lemma ReloadLeaves(w: World, isPrimary: bool, k: nat)
    requires WorldOk(w) && k < |w| && k != MagAt(isPrimary)
    requires 25 <= k || w[k].blueprint != RoundsOf(w[GunAt(isPrimary)])
    ensures Apply(w, Reload(isPrimary))[k] == w[k]
  {
    if IsWeapon(w[GunAt(isPrimary)]) {
      var mag, ammo := MagAt(isPrimary), RoundsOf(w[GunAt(isPrimary)]);
      LoadedLeaves(w, Load(w, isPrimary), isPrimary, mag, ammo, 30 - w[mag].quantity, k);
    } else {
      LoadOf(w, isPrimary);
    }
  }

  lemma LoadedLeaves(w: World, w': World, isPrimary: bool, mag: nat, ammo: nat, need: int, k: nat)
    requires WorldOk(w) && IsWeapon(w[GunAt(isPrimary)]) && w' == Load(w, isPrimary)
    requires mag == MagAt(isPrimary) && ammo == RoundsOf(w[GunAt(isPrimary)]) && need == 30 - w[mag].quantity
    requires k < |w| && k != mag && (25 <= k || w[k].blueprint != ammo)
    ensures w'[k] == w[k]
  {
    LoadOfWeapon(w, isPrimary, mag, ammo, need);
    LoadLeaves(w, mag, ammo, need, k);
  }

  lemma LoadOfWeapon(w: World, isPrimary: bool, mag: nat, ammo: nat, need: int)
    requires WorldOk(w) && IsWeapon(w[GunAt(isPrimary)])
    requires mag == MagAt(isPrimary) && ammo == RoundsOf(w[GunAt(isPrimary)]) && need == 30 - w[mag].quantity
    ensures Loadable(w, mag, ammo, 0) && Load(w, isPrimary) == LoadFrom(w, mag, ammo, need, 0)
  {
    LoadOf(w, isPrimary);
  }

  lemma LoadLeaves(w: World, mag: nat, ammo: nat, need: int, k: nat)
    requires Loadable(w, mag, ammo, 0) && k < |w| && k != mag && (25 <= k || w[k].blueprint != ammo)
    ensures LoadFrom(w, mag, ammo, need, 0)[k] == w[k]
  {
    LoadFrame(w, mag, ammo, need, 0);
    if k < 25 { LoadTakesItsKind(w, mag, ammo, need, 0, k); }
  }

  lemma {:induction false} LoadTakesItsKind(w: World, mag: nat, ammo: nat, need: int, i: nat, k: nat)
    requires Loadable(w, mag, ammo, i) && k < 25 && w[k].blueprint != ammo
    ensures LoadFrom(w, mag, ammo, need, i)[k] == w[k]
    decreases 25 - i
  {
    if i < 25 && need > 0 {
      if w[i].IsEmpty() || w[i].blueprint != ammo {
        LoadTakesItsKind(w, mag, ammo, need, i + 1, k);
      } else {
        PourLoadable(w, mag, ammo, need, i);
        var take := Min(w[i].quantity, need);
        LoadTakesItsKind(Pour(w, i, mag, take), mag, ammo, need - take, i + 1, k);
      }
    }
  }

  // ---- Requests ----

  /** Moving things needs the container open as soon as either slot is its own, each owner's current version, and
      slots that exist. */
  lemma InteractionAdmitted(r: Request, isOpen: bool, mine: nat, theirs: nat, volume: nat)
    ensures Admissible(r, isOpen, mine, theirs, volume) <==>
      && (r.startMine ==> r.startVersion == mine && 0 <= r.startIdx < 25)
      && (!r.startMine ==> isOpen && r.startVersion == theirs && 0 <= r.startIdx < volume)
      && (r.endMine ==> r.endVersion == mine && 0 <= r.endIdx < 25)
      && (!r.endMine ==> isOpen && r.endVersion == theirs && 0 <= r.endIdx < volume)
  {}

  /** Equipping checks the versions too: of the inventory, and of the open container if the slot is there. */
  lemma EquipAdmitted(r: EquipRequest, isOpen: bool, mine: nat, theirs: nat, volume: nat)
    ensures EquipAdmissible(r, isOpen, mine, theirs, volume) <==>
      && r.slotType in {0, 1, 2}
      && (r.mine ==> r.objectVersion == mine && 0 <= r.idx < 25)
      && (!r.mine ==> isOpen && r.objectVersion == theirs && r.myVersion == mine && 0 <= r.idx < volume)
  {}

  /** The slots and the operations a request means: 0 is the primary weapon, 1 the secondary one, 2 the armor. */
  lemma RequestMeans(r: EquipRequest, place: nat, idx: nat)
    ensures Named(true, idx) == idx && Named(false, idx) == 30 + idx
    ensures r.slotType == 0 ==> OpOf(r, place) == if r.equip then Equip(place, true) else Unequip(place, true)
    ensures r.slotType == 1 ==> OpOf(r, place) == if r.equip then Equip(place, false) else Unequip(place, false)
    ensures r.slotType == 2 ==> OpOf(r, place) == if r.equip then WearArmor(place) else TakeOffArmor(place)
  {}

  // ---- What a player starts with and what is left ----

  /** Slot i starts out with the last entry for it, and empty without one. */
  lemma OutfitSlot(inventory: seq<(int, Slot)>, equipment: seq<(int, Slot)>, i: nat, n: nat)
    requires i < 25 && n < |inventory| && inventory[n].0 == i && forall m | n < m < |inventory| :: inventory[m].0 != i
    ensures Outfit(inventory, equipment)[i] == inventory[n].1
  {
    LastForIs(inventory, i, n);
  }

  lemma OutfitGear(inventory: seq<(int, Slot)>, equipment: seq<(int, Slot)>, i: int, n: nat)
    requires 0 <= i < 3 && n < |equipment| && equipment[n].0 == i
    requires forall m | n < m < |equipment| :: equipment[m].0 != i
    ensures Outfit(inventory, equipment)[25 + 2 * i] == equipment[n].1
  {
    LastForIs(equipment, i, n);
  }

  lemma OutfitElse(inventory: seq<(int, Slot)>, equipment: seq<(int, Slot)>, i: nat)
    ensures Outfit(inventory, equipment)[26] == Slot(0, 0) && Outfit(inventory, equipment)[28] == Slot(0, 0)
    ensures i < 25 && (forall e <- inventory :: e.0 != i) ==> Outfit(inventory, equipment)[i] == Slot(0, 0)
    ensures i < 3 && (forall e <- equipment :: e.0 != i) ==> Outfit(inventory, equipment)[25 + 2 * i] == Slot(0, 0)
  {
    if forall e <- inventory :: e.0 != i { LastForNone(inventory, i); }
    if forall e <- equipment :: e.0 != i { LastForNone(equipment, i); }
  }

  lemma {:induction false} LastForIs(entries: seq<(int, Slot)>, i: int, n: nat)
    requires n < |entries| && entries[n].0 == i && forall m | n < m < |entries| :: entries[m].0 != i
    ensures LastFor(entries, i) == entries[n].1
  {
    if n < |entries| - 1 { LastForIs(entries[..|entries| - 1], i, n); }
  }

  lemma {:induction false} LastForNone(entries: seq<(int, Slot)>, i: int)
    requires forall e <- entries :: e.0 != i
    ensures LastFor(entries, i) == Slot(0, 0)
  {
    if entries != [] {
      assert entries[|entries| - 1] in entries;
      LastForNone(entries[..|entries| - 1], i);
    }
  }

  /** How many of the first k slots of s hold something. */
  function Filled(s: World, k: nat): nat
    requires k <= |s|
  {
    if k == 0 then 0 else Filled(s, k - 1) + (if s[k - 1].IsEmpty() then 0 else 1)
  }

  lemma {:induction false} NonEmptyPlace(s: World, k: nat, i: nat)
    requires k <= |s|
    ensures |NonEmpties(s[..k])| == Filled(s, k)
    ensures i < k && !s[i].IsEmpty() ==> Filled(s, i) < Filled(s, k) && NonEmpties(s[..k])[Filled(s, i)] == s[i]
  {
    if k > 0 {
      NonEmptiesNext(s, k - 1);
      NonEmptyPlace(s, k - 1, i);
    }
  }

  /** A dead player's things lie without gaps in this order: primary weapon and magazine, secondary weapon and
      magazine, armor, then the inventory from its first slot on. */
  lemma DropPlace(w: World, i: nat)
    requires |w| >= 30 && i < 30
    ensures var order := w[25..30] + w[..25]; var things := NonEmpties(DropOrder(w));
      && |things| == Filled(order, 30)
      && (!order[i].IsEmpty() ==> Filled(order, i) < |things| && things[Filled(order, i)] == order[i])
  {
    var order := w[25..30] + w[..25];
    NonEmptyPlace(order, 30, i);
    assert order[..30] == order;
  }
}
