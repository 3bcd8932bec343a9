/** The inventory object: its slot array, its five gear slots, its version and its first-empty index.  A slot
    is passed by reference, as an array and an index: the inventory's own array or an open container's. */
module PlayerInventories {
  import opened InventoryModel
  import opened InventoryRuns

  class PlayerInventory {
    const inventorySlots: array<Slot>
    var primaryWeapon: Slot
    var primaryMagazine: Slot
    var secondaryWeapon: Slot
    var secondaryMagazine: Slot
    var armor: Slot
    var version: nat
    var firstEmpty: int

    ghost function Gear(): seq<Slot> reads this
    {
      [primaryWeapon, primaryMagazine, secondaryWeapon, secondaryMagazine, armor]
    }

    /** The row of slots in reach when box is the array of the other slot: the player's own, then the box. */
    ghost function World(box: array<Slot>): InventoryModel.World
      reads this, inventorySlots, box
    {
      inventorySlots[..] + Gear() + (if box == inventorySlots then [] else box[..])
    }

    /** Where slot k of an array stands in that row. */
    ghost function Place(src: array<Slot>, k: nat): nat { if src == inventorySlots then k else BOX + k }

    ghost predicate Shape() reads this { inventorySlots.Length == INVENTORY_SLOT_COUNT }

    /** The first-empty index is the true one. */
    ghost predicate Tidy(box: array<Slot>) reads this, inventorySlots, box {
      Shape() && firstEmpty == FirstEmpty(World(box), 0)
    }

    /** What each operation relies on; that it holds again afterwards is InventoryRuns.ApplyKeeps. */
    ghost predicate Valid(box: array<Slot>) reads this, inventorySlots, box { Tidy(box) && WorldOk(World(box)) }

    /** A later entry for a slot overrides an earlier one, entries for no slot are dropped, and then both
        magazines are filled from the inventory. */
    constructor (inventory: seq<(int, Slot)>, equipment: seq<(int, Slot)>)
      requires forall e <- inventory + equipment :: SlotOk(e.1)
      ensures fresh(inventorySlots) && Valid(inventorySlots)
      ensures World(inventorySlots) == Load(Load(Outfit(inventory, equipment), true), false)
    {
      inventorySlots := new Slot[INVENTORY_SLOT_COUNT](_ => EMPTY);
      primaryWeapon, secondaryWeapon, armor := EMPTY, EMPTY, EMPTY;
      primaryMagazine, secondaryMagazine, version, firstEmpty := EMPTY, EMPTY, 0, -1;
      new;
      FillSlots(inventory);
      FillGear(equipment);
      assert World(inventorySlots) == Outfit(inventory, equipment);
      OutfitOk(inventory, equipment);
      LoadBoth();
    }

    method FillSlots(entries: seq<(int, Slot)>)
      requires Shape() && forall i | 0 <= i < INVENTORY_SLOT_COUNT :: inventorySlots[i] == EMPTY
      modifies inventorySlots
      ensures forall i | 0 <= i < INVENTORY_SLOT_COUNT :: inventorySlots[i] == LastFor(entries, i)
    {
      var n := 0;
      while n < |entries|
        invariant 0 <= n <= |entries| && forall i | 0 <= i < INVENTORY_SLOT_COUNT ::
          inventorySlots[i] == LastFor(entries[..n], i)
      {
        assert entries[..n + 1][..n] == entries[..n];
        if 0 <= entries[n].0 < INVENTORY_SLOT_COUNT { inventorySlots[entries[n].0] := entries[n].1; }
        n := n + 1;
      }
      assert entries[..n] == entries;
    }

    method FillGear(entries: seq<(int, Slot)>)
      requires primaryWeapon == EMPTY && secondaryWeapon == EMPTY && armor == EMPTY
      modifies this`primaryWeapon, this`secondaryWeapon, this`armor
      ensures primaryWeapon == LastFor(entries, 0) && secondaryWeapon == LastFor(entries, 1)
        && armor == LastFor(entries, 2)
    {
      var n := 0;
      while n < |entries|
        invariant 0 <= n <= |entries| && primaryWeapon == LastFor(entries[..n], 0)
        invariant secondaryWeapon == LastFor(entries[..n], 1) && armor == LastFor(entries[..n], 2)
      {
        assert entries[..n + 1][..n] == entries[..n];
        if entries[n].0 == 0 {
          primaryWeapon := entries[n].1;
        } else if entries[n].0 == 1 {
          secondaryWeapon := entries[n].1;
        } else if entries[n].0 == 2 {
          armor := entries[n].1;
        }
        n := n + 1;
      }
      assert entries[..n] == entries;
    }

    /** The rest of the construction. */
    method LoadBoth()
      requires Shape() && WorldOk(World(inventorySlots))
      modifies this, inventorySlots
      ensures Tidy(inventorySlots) && World(inventorySlots) == Load(Load(old(World(inventorySlots)), true), false)
    {
      LoadKeeps(World(inventorySlots), true);
      UpdateFirstEmptySlotIndex(inventorySlots);
      LoadMagazineFromInventory(true, inventorySlots);
      LoadMagazineFromInventory(false, inventorySlots);
    }

    method UpdateFirstEmptySlotIndex(ghost box: array<Slot>)
      requires Shape()
      modifies this`firstEmpty
      ensures World(box) == old(World(box)) && firstEmpty == FirstEmpty(World(box), 0)
    {
      firstEmpty := -1;
      var i := 0;
      ghost var w := World(box);
      while i < INVENTORY_SLOT_COUNT
        invariant 0 <= i <= INVENTORY_SLOT_COUNT && firstEmpty == -1
        invariant FirstEmpty(w, 0) == FirstEmpty(w, i)
      {
        assert w[i] == inventorySlots[i];
        if inventorySlots[i].IsEmpty() {
          firstEmpty := i;
          return;
        }
        i := i + 1;
      }
    }

    // ---- Writing through a reference ----

    method Put(src: array<Slot>, k: nat, s: Slot, ghost box: array<Slot>)
      requires Shape() && k < src.Length && src in {box, inventorySlots}
      modifies src
      ensures World(box) == old(World(box))[Place(src, k) := s]
    {
      src[k] := s;
      assert World(box) == old(World(box))[Place(src, k) := s];
    }

    method PutOwn(k: nat, s: Slot, ghost box: array<Slot>)
      requires Shape() && k < INVENTORY_SLOT_COUNT
      modifies inventorySlots
      ensures World(box) == old(World(box))[k := s]
    {
      inventorySlots[k] := s;
      assert World(box) == old(World(box))[k := s];
    }

    method PutMagazine(isPrimary: bool, s: Slot, ghost box: array<Slot>)
      requires Shape()
      modifies this`primaryMagazine, this`secondaryMagazine
      ensures World(box) == old(World(box))[Mag(isPrimary) := s]
    {
      if isPrimary { primaryMagazine := s; } else { secondaryMagazine := s; }
      assert World(box) == old(World(box))[Mag(isPrimary) := s];
    }

    method PutGun(isPrimary: bool, s: Slot, ghost box: array<Slot>)
      requires Shape()
      modifies this`primaryWeapon, this`secondaryWeapon
      ensures World(box) == old(World(box))[Gun(isPrimary) := s]
    {
      if isPrimary { primaryWeapon := s; } else { secondaryWeapon := s; }
      assert World(box) == old(World(box))[Gun(isPrimary) := s];
    }

    method PutArmor(s: Slot, ghost box: array<Slot>)
      requires Shape()
      modifies this`armor
      ensures World(box) == old(World(box))[ARMOR_SLOT := s]
    {
      armor := s;
      assert World(box) == old(World(box))[ARMOR_SLOT := s];
    }

    function MagazineSlot(isPrimary: bool): Slot reads this { if isPrimary then primaryMagazine else secondaryMagazine }

    function WeaponSlot(isPrimary: bool): Slot reads this { if isPrimary then primaryWeapon else secondaryWeapon }

    /** What stands where in the row. */
    lemma Reads(box: array<Slot>, isPrimary: bool)
      requires Shape()
      ensures |World(box)| >= BOX && World(box)[Mag(isPrimary)] == MagazineSlot(isPrimary)
        && World(box)[Gun(isPrimary)] == WeaponSlot(isPrimary)
      ensures World(box)[ARMOR_SLOT] == armor
      ensures forall i | 0 <= i < INVENTORY_SLOT_COUNT :: World(box)[i] == inventorySlots[i]
    {}

    lemma PlaceIs(src: array<Slot>, k: nat, box: array<Slot>)
      requires Shape() && k < src.Length && src in {box, inventorySlots}
      ensures Place(src, k) < |World(box)| && World(box)[Place(src, k)] == src[k]
        && Reachable(World(box), Place(src, k))
    {}

    // ---- Magazines ----

    method LoadMagazineFromInventory(isPrimary: bool, ghost box: array<Slot>)
      requires Valid(box)
      modifies this`primaryMagazine, this`secondaryMagazine, this`firstEmpty, this`version, inventorySlots
      ensures Tidy(box) && World(box) == Load(old(World(box)), isPrimary)
      ensures version == old(version) + (if World(box) != old(World(box)) then 1 else 0)
    {
      Reads(box, isPrimary);
      LoadIs(World(box), isPrimary);
      var gun := WeaponSlot(isPrimary);
      if gun.IsEmpty() { return; }
      if !HasSpec(gun.blueprint) { return; }
      var remaining := MAX_AMMO - MagazineSlot(isPrimary).quantity;
      if remaining <= 0 { return; }
      LoadRounds(isPrimary, AmmoType(gun.blueprint), remaining, box);
    }

    method LoadRounds(isPrimary: bool, ammo: nat, need: int, ghost box: array<Slot>)
      requires Tidy(box) && need > 0 && Loadable(World(box), Mag(isPrimary), ammo, 0)
      modifies this`primaryMagazine, this`secondaryMagazine, this`firstEmpty, this`version, inventorySlots
      ensures Tidy(box) && World(box) == LoadFrom(old(World(box)), Mag(isPrimary), ammo, need, 0)
      ensures version == old(version) + (if World(box) != old(World(box)) then 1 else 0)
    {
      var changed := MoveRounds(isPrimary, ammo, need, box);
      if changed {
        UpdateFirstEmptySlotIndex(box);
        version := version + 1;
      }
    }

    /** Moves n rounds of slot i into the magazine. */
    method MoveInto(i: nat, isPrimary: bool, n: int, ghost box: array<Slot>)
      requires Shape() && i < INVENTORY_SLOT_COUNT
      modifies this`primaryMagazine, this`secondaryMagazine, inventorySlots
      ensures World(box) == Pour(old(World(box)), i, Mag(isPrimary), n)
    {
      Reads(box, isPrimary);
      var slot := inventorySlots[i];
      PutMagazine(isPrimary, More(MagazineSlot(isPrimary), slot.blueprint, n), box);
      PutOwn(i, Less(slot, n), box);
    }

    /** Takes rounds from the lowest slots up until the magazine has what it needs. */
    method MoveRounds(isPrimary: bool, ammo: nat, need: int, ghost box: array<Slot>) returns (changed: bool)
      requires Shape() && need > 0 && Loadable(World(box), Mag(isPrimary), ammo, 0)
      modifies this`primaryMagazine, this`secondaryMagazine, inventorySlots
      ensures World(box) == LoadFrom(old(World(box)), Mag(isPrimary), ammo, need, 0)
      ensures changed <==> World(box) != old(World(box))
    {
      changed := false;
      var remaining := need;
      var i := 0;
      ghost var before := World(box);
      while i < INVENTORY_SLOT_COUNT && remaining > 0
        invariant 0 <= i <= INVENTORY_SLOT_COUNT
          && Moving(before, World(box), Mag(isPrimary), ammo, need, remaining, i, changed)
      {
        MoveStep(before, World(box), Mag(isPrimary), ammo, need, remaining, i, changed);
        var found, take := MoveFrom(i, isPrimary, ammo, remaining, box);
        if found {
          remaining := remaining - take;
          changed := true;
        }
        i := i + 1;
      }
    }

    /** Takes what slot i has of the ammunition, up to the need. */
    method MoveFrom(i: nat, isPrimary: bool, ammo: nat, need: int, ghost box: array<Slot>)
        returns (found: bool, take: int)
      requires Shape() && i < INVENTORY_SLOT_COUNT
      modifies this`primaryMagazine, this`secondaryMagazine, inventorySlots
      ensures var w := old(World(box));
        && found == (!w[i].IsEmpty() && w[i].blueprint == ammo)
        && (found ==> take == Min(w[i].quantity, need) && World(box) == Pour(w, i, Mag(isPrimary), take))
        && (!found ==> World(box) == w)
    {
      var slot := inventorySlots[i];
      Reads(box, isPrimary);
      found, take := false, 0;
      if !slot.IsEmpty() && slot.blueprint == ammo {
        take := Min(slot.quantity, need);
        MoveInto(i, isPrimary, take, box);
        found := true;
      }
    }

    method ReloadMagazine(isPrimary: bool, ghost box: array<Slot>) returns (ok: bool)
      requires Valid(box)
      modifies this`primaryMagazine, this`secondaryMagazine, this`firstEmpty, this`version, inventorySlots
      ensures Tidy(box) && World(box) == Load(old(World(box)), isPrimary) && ok == CanReload(old(World(box)), isPrimary)
      ensures version == old(version) + (if ok then 1 else 0)
    {
      ReloadsIff(World(box), isPrimary);
      var versionBefore := version;
      LoadMagazineFromInventory(isPrimary, box);
      ok := version != versionBefore;
    }

    /** Finds the first stack of the magazine's kind. */
    method FindStack(blueprint: nat, ghost box: array<Slot>) returns (k: int)
      requires Shape()
      ensures k == FirstStack(World(box), blueprint, 0)
    {
      k := 0;
      ghost var w := World(box);
      while k < INVENTORY_SLOT_COUNT
        invariant 0 <= k <= INVENTORY_SLOT_COUNT && FirstStack(w, blueprint, 0) == FirstStack(w, blueprint, k)
      {
        assert w[k] == inventorySlots[k];
        if !inventorySlots[k].IsEmpty() && inventorySlots[k].blueprint == blueprint { return; }
        k := k + 1;
      }
      k := -1;
    }

    method UnloadMagazineToInventory(isPrimary: bool, ghost box: array<Slot>) returns (slotIdx: int)
      requires Tidy(box) && SlotOk(MagazineSlot(isPrimary))
      modifies this`primaryMagazine, this`secondaryMagazine, this`firstEmpty, inventorySlots
      ensures World(box) == Unload(old(World(box)), isPrimary) && Tidy(box)
      ensures slotIdx == UnloadSlot(old(World(box)), isPrimary)
    {
      slotIdx := -1;
      var mag := MagazineSlot(isPrimary);
      ghost var before := World(box);
      Reads(box, isPrimary);
      if mag.IsEmpty() { return; }
      var k := FindStack(mag.blueprint, box);
      UnloadEmpties(before, isPrimary);
      if k != -1 {
        PutOwn(k, More(inventorySlots[k], mag.blueprint, mag.quantity), box);
        PutMagazine(isPrimary, EMPTY, box);
        return k;
      }
      if firstEmpty == -1 {
        PutMagazine(isPrimary, EMPTY, box);
        return;
      }
      slotIdx := firstEmpty;
      PutOwn(firstEmpty, mag, box);
      PutMagazine(isPrimary, EMPTY, box);
      UpdateFirstEmptySlotIndex(box);
    }

    // ---- Equipment ----

    /** Exchanges a weapon slot with a slot of the row; an empty one is moved into. */
    method ExchangeWeapon(src: array<Slot>, k: nat, isPrimary: bool, ghost box: array<Slot>)
      requires Shape() && k < src.Length && src in {box, inventorySlots} && SlotOk(src[k])
        && SlotOk(WeaponSlot(isPrimary))
      modifies this`primaryWeapon, this`secondaryWeapon, src
      ensures World(box) == Swap(old(World(box)), Place(src, k), Gun(isPrimary))
    {
      Reads(box, isPrimary);
      PlaceIs(src, k, box);
      var gun, item := WeaponSlot(isPrimary), src[k];
      if gun.IsEmpty() {
        Put(src, k, EMPTY, box);
        PutGun(isPrimary, item, box);
      } else if item.IsEmpty() {
        Put(src, k, gun, box);
        PutGun(isPrimary, EMPTY, box);
      } else {
        Put(src, k, gun, box);
        PutGun(isPrimary, item, box);
      }
    }

    /** What an exchange of weapons needs to know of the slots involved. */
    ghost predicate Ready(src: array<Slot>, k: nat, isPrimary: bool) reads this, src {
      && k < src.Length && SlotOk(src[k]) && SlotOk(WeaponSlot(isPrimary)) && SlotOk(MagazineSlot(isPrimary))
      && MagOk(WeaponSlot(isPrimary), MagazineSlot(isPrimary))
    }

    lemma ValidIsReady(src: array<Slot>, k: nat, isPrimary: bool, box: array<Slot>)
      requires Valid(box) && k < src.Length && src in {box, inventorySlots}
      ensures Ready(src, k, isPrimary) && SlotOk(armor)
    {
      Reads(box, isPrimary);
      PlaceIs(src, k, box);
    }

    method EquipWeaponFromSlot(src: array<Slot>, k: nat, isPrimary: bool, ghost box: array<Slot>)
        returns (deny: Deny, unloaded: int)
      requires Tidy(box) && Ready(src, k, isPrimary) && src in {box, inventorySlots}
      modifies this, inventorySlots, src
      ensures Tidy(box) && deny == EquipWeaponDeny(old(World(box)), Place(src, k))
      ensures World(box) == EquipWeapon(old(World(box)), Place(src, k), isPrimary)
      ensures unloaded == if deny == OK then UnloadSlot(old(World(box)), isPrimary) else -1
      ensures version == old(version) + (if deny == OK then 1 else 0)
    {
      unloaded := -1;
      Reads(box, isPrimary);
      PlaceIs(src, k, box);
      if src[k].IsEmpty() { return SLOT_EMPTY, -1; }
      if src[k].Type() != WEAPON { return ITEM_TYPE_MISMATCH, -1; }
      unloaded := PutOn(src, k, isPrimary, box);
      version := version + 1;
      deny := OK;
    }

    method PutOn(src: array<Slot>, k: nat, isPrimary: bool, ghost box: array<Slot>) returns (unloaded: int)
      requires Tidy(box) && Ready(src, k, isPrimary) && src in {box, inventorySlots} && !src[k].IsEmpty()
        && src[k].Type() == WEAPON
      modifies this`primaryWeapon, this`secondaryWeapon, this`primaryMagazine, this`secondaryMagazine, this`firstEmpty,
        inventorySlots, src
      ensures Tidy(box) && World(box) == Swap(Unload(old(World(box)), isPrimary), Place(src, k), Gun(isPrimary))
      ensures unloaded == UnloadSlot(old(World(box)), isPrimary)
    {
      Reads(box, isPrimary);
      PlaceIs(src, k, box);
      UnloadLeaves(World(box), isPrimary, Place(src, k));
      unloaded := UnloadMagazineToInventory(isPrimary, box);
      Reads(box, isPrimary);
      PlaceIs(src, k, box);
      ExchangeWeapon(src, k, isPrimary, box);
      UpdateFirstEmptySlotIndex(box);
    }

    method CheckUnequip(src: array<Slot>, k: nat, isPrimary: bool, ghost box: array<Slot>) returns (deny: Deny)
      requires Shape() && k < src.Length && src in {box, inventorySlots}
      ensures deny == UnequipWeaponDeny(World(box), Place(src, k), isPrimary)
    {
      Reads(box, isPrimary);
      Reads(box, !isPrimary);
      PlaceIs(src, k, box);
      if WeaponSlot(isPrimary).IsEmpty() { return SLOT_EMPTY; }
      if src[k].IsEmpty() {
        if WeaponSlot(!isPrimary).IsEmpty() { return BARE_HANDED; }
      } else {
        if src[k].Type() != WEAPON { return ITEM_TYPE_MISMATCH; }
      }
      deny := OK;
    }

    /** The weapon moves before its magazine is unloaded, so that the rounds may take the slot it leaves. */
    method UnequipWeaponToSlot(src: array<Slot>, k: nat, isPrimary: bool, ghost box: array<Slot>)
        returns (deny: Deny, unloaded: int)
      requires Tidy(box) && Ready(src, k, isPrimary) && src in {box, inventorySlots}
      modifies this, inventorySlots, src
      ensures Tidy(box) && deny == UnequipWeaponDeny(old(World(box)), Place(src, k), isPrimary)
      ensures World(box) == UnequipWeapon(old(World(box)), Place(src, k), isPrimary)
      ensures unloaded == if deny == OK
        then UnloadSlot(Swap(old(World(box)), Place(src, k), Gun(isPrimary)), isPrimary) else -1
      ensures version == old(version) + (if deny == OK then 1 else 0)
    {
      deny := CheckUnequip(src, k, isPrimary, box);
      if deny != OK { return deny, -1; }
      unloaded := TakeOff(src, k, isPrimary, box);
      version := version + 1;
    }

    method TakeOff(src: array<Slot>, k: nat, isPrimary: bool, ghost box: array<Slot>) returns (unloaded: int)
      requires Tidy(box) && Ready(src, k, isPrimary) && src in {box, inventorySlots}
      modifies this`primaryWeapon, this`secondaryWeapon, this`primaryMagazine, this`secondaryMagazine, this`firstEmpty,
        inventorySlots, src
      ensures Tidy(box) && World(box) == Unload(Swap(old(World(box)), Place(src, k), Gun(isPrimary)), isPrimary)
      ensures unloaded == UnloadSlot(Swap(old(World(box)), Place(src, k), Gun(isPrimary)), isPrimary)
    {
      ExchangeWeapon(src, k, isPrimary, box);
      UpdateFirstEmptySlotIndex(box);
      unloaded := UnloadMagazineToInventory(isPrimary, box);
    }

    /** Exchanges the armor slot with a slot of the row; an empty one is moved into. */
    method ExchangeArmor(src: array<Slot>, k: nat, ghost box: array<Slot>)
      requires Shape() && k < src.Length && src in {box, inventorySlots} && SlotOk(src[k]) && SlotOk(armor)
      modifies this`armor, src
      ensures World(box) == Swap(old(World(box)), Place(src, k), ARMOR_SLOT)
    {
      Reads(box, true);
      PlaceIs(src, k, box);
      var item, worn := src[k], armor;
      Put(src, k, if worn.IsEmpty() then EMPTY else worn, box);
      PutArmor(if item.IsEmpty() then EMPTY else item, box);
    }

    method EquipArmorFromSlot(src: array<Slot>, k: nat, ghost box: array<Slot>) returns (deny: Deny)
      requires Tidy(box) && k < src.Length && src in {box, inventorySlots} && SlotOk(src[k]) && SlotOk(armor)
      modifies this`armor, this`firstEmpty, this`version, src
      ensures Tidy(box) && deny == EquipArmorDeny(old(World(box)), Place(src, k))
      ensures World(box) == if deny == OK then Swap(old(World(box)), Place(src, k), ARMOR_SLOT) else old(World(box))
      ensures version == old(version) + (if deny == OK then 1 else 0)
    {
      Reads(box, true);
      PlaceIs(src, k, box);
      var item, worn := src[k], armor;
      if item.IsEmpty() { return SLOT_EMPTY; }
      if item.Type() != ARMOR { return ITEM_TYPE_MISMATCH; }
      ExchangeArmor(src, k, box);
      UpdateFirstEmptySlotIndex(box);
      version := version + 1;
      deny := OK;
    }

    method UnequipArmorToSlot(src: array<Slot>, k: nat, ghost box: array<Slot>) returns (deny: Deny)
      requires Tidy(box) && k < src.Length && src in {box, inventorySlots} && SlotOk(src[k]) && SlotOk(armor)
      modifies this`armor, this`firstEmpty, this`version, src
      ensures Tidy(box) && deny == UnequipArmorDeny(old(World(box)), Place(src, k))
      ensures World(box) == if deny == OK then Swap(old(World(box)), Place(src, k), ARMOR_SLOT) else old(World(box))
      ensures version == old(version) + (if deny == OK then 1 else 0)
    {
      Reads(box, true);
      PlaceIs(src, k, box);
      var item, worn := src[k], armor;
      if worn.IsEmpty() { return SLOT_EMPTY; }
      if !item.IsEmpty() && item.Type() != ARMOR { return ITEM_TYPE_MISMATCH; }
      ExchangeArmor(src, k, box);
      UpdateFirstEmptySlotIndex(box);
      version := version + 1;
      deny := OK;
    }

    /** A shot takes one round; the version does not move. */
    method FireRound(isPrimary: bool, ghost box: array<Slot>) returns (fired: bool)
      requires Valid(box)
      modifies this`primaryMagazine, this`secondaryMagazine
      ensures Tidy(box) && World(box) == InventoryModel.Fire(old(World(box)), isPrimary)
      ensures fired == (World(box) != old(World(box)))
    {
      Reads(box, isPrimary);
      var mag := MagazineSlot(isPrimary);
      if mag.IsEmpty() || mag.quantity <= 0 { return false; }
      FireSpends(World(box), isPrimary);
      PutMagazine(isPrimary, Less(mag, 1), box);
      fired := true;
    }

    /** Everything goes, gear and magazines included. */
    method Clear()
      requires Shape()
      modifies this, inventorySlots
      ensures World(inventorySlots) == seq(BOX, _ => EMPTY) && Tidy(inventorySlots) && version == old(version) + 1
    {
      primaryWeapon, secondaryWeapon, armor, primaryMagazine, secondaryMagazine := EMPTY, EMPTY, EMPTY, EMPTY, EMPTY;
      ClearSlots();
      version := version + 1;
      assert World(inventorySlots) == seq(BOX, _ => EMPTY);
      UpdateFirstEmptySlotIndex(inventorySlots);
    }

    method ClearSlots()
      modifies inventorySlots
      ensures forall k | 0 <= k < inventorySlots.Length :: inventorySlots[k] == EMPTY
    {
      var i := 0;
      while i < inventorySlots.Length
        invariant 0 <= i <= inventorySlots.Length && forall k | 0 <= k < i :: inventorySlots[k] == EMPTY
      {
        inventorySlots[i] := EMPTY;
        i := i + 1;
      }
    }
  }

  /** Partway through a reload: what is left to do from w finishes what there was to do from before. */
  ghost predicate Moving(before: InventoryModel.World, w: InventoryModel.World, mag: nat, ammo: nat, need: int,
      left: int, i: nat, changed: bool)
  {
    && Loadable(w, mag, ammo, i) && |before| == |w|
      && LoadFrom(w, mag, ammo, left, i) == LoadFrom(before, mag, ammo, need, 0)
    && (!changed ==> w == before) && (changed ==> w[mag].quantity > before[mag].quantity)
  }

  lemma MoveStep(before: InventoryModel.World, w: InventoryModel.World, mag: nat, ammo: nat, need: int, left: int,
      i: nat, changed: bool)
    requires Moving(before, w, mag, ammo, need, left, i, changed) && i < INVENTORY_SLOT_COUNT && left > 0
    ensures if !w[i].IsEmpty() && w[i].blueprint == ammo then
        Moving(before, Pour(w, i, mag, Min(w[i].quantity, left)), mag, ammo, need, left - Min(w[i].quantity, left),
            i + 1, true)
      else
        Moving(before, w, mag, ammo, need, left, i + 1, changed)
  {
    if !w[i].IsEmpty() && w[i].blueprint == ammo { PourLoadable(w, mag, ammo, left, i); }
  }

  /** When a reload has anything to do, what it does. */
  lemma LoadIs(w: InventoryModel.World, isPrimary: bool)
    requires WorldOk(w)
    ensures var gun, mag := w[Gun(isPrimary)], Mag(isPrimary);
      if gun.IsEmpty() || !HasSpec(gun.blueprint) || MAX_AMMO - w[mag].quantity <= 0 then
        Load(w, isPrimary) == w
      else
        && Loadable(w, mag, AmmoType(gun.blueprint), 0)
        && Load(w, isPrimary) == LoadFrom(w, mag, AmmoType(gun.blueprint), MAX_AMMO - w[mag].quantity, 0)
  {}

  /** Unloading leaves alone what is neither empty nor of the magazine's kind. */
  lemma UnloadLeaves(w: InventoryModel.World, isPrimary: bool, i: nat)
    requires |w| >= BOX && i < |w| && i != Mag(isPrimary) && !w[i].IsEmpty()
    requires !w[Mag(isPrimary)].IsEmpty() ==> w[i].blueprint != w[Mag(isPrimary)].blueprint
    ensures Unload(w, isPrimary)[i] == w[i] && Unload(w, isPrimary)[Gun(isPrimary)] == w[Gun(isPrimary)]
  {}

  /** An unloading that finds a stack, or nowhere to go, leaves the same inventory slots empty. */
  lemma UnloadEmpties(w: InventoryModel.World, isPrimary: bool)
    requires |w| >= BOX && SlotOk(w[Mag(isPrimary)])
    ensures FirstStack(w, w[Mag(isPrimary)].blueprint, 0) != -1 || FirstEmpty(w, 0) == -1 ==>
      FirstEmpty(Unload(w, isPrimary), 0) == FirstEmpty(w, 0)
  {
    if FirstStack(w, w[Mag(isPrimary)].blueprint, 0) != -1 || FirstEmpty(w, 0) == -1 {
      SameEmpties(w, Unload(w, isPrimary), 0);
    }
  }

  lemma FireSpends(w: InventoryModel.World, isPrimary: bool)
    requires |w| >= BOX && w[Mag(isPrimary)].quantity > 0
    ensures InventoryModel.Fire(w, isPrimary) != w
      && FirstEmpty(InventoryModel.Fire(w, isPrimary), 0) == FirstEmpty(w, 0)
  {
    SameEmpties(w, InventoryModel.Fire(w, isPrimary), 0);
    assert InventoryModel.Fire(w, isPrimary)[Mag(isPrimary)] != w[Mag(isPrimary)];
  }

  /** The last entry for slot i, if any. */
  function LastFor(entries: seq<(int, Slot)>, i: int): Slot {
    if entries == [] then EMPTY
    else if entries[|entries| - 1].0 == i then entries[|entries| - 1].1
    else LastFor(entries[..|entries| - 1], i)
  }

  /** A player as Main describes it, before the magazines are filled. */
  function Outfit(inventory: seq<(int, Slot)>, equipment: seq<(int, Slot)>): InventoryModel.World {
    seq(INVENTORY_SLOT_COUNT, i => LastFor(inventory, i))
        + [LastFor(equipment, 0), EMPTY, LastFor(equipment, 1), EMPTY, LastFor(equipment, 2)]
  }

  lemma {:induction false} LastForOk(entries: seq<(int, Slot)>, i: int)
    requires forall e <- entries :: SlotOk(e.1)
    ensures SlotOk(LastFor(entries, i))
  {
    if entries != [] {
      assert entries[|entries| - 1] in entries;
      LastForOk(entries[..|entries| - 1], i);
    }
  }

  /** Every player starts out in order: magazines empty before the filling, right for their weapons after it. */
  lemma OutfitOk(inventory: seq<(int, Slot)>, equipment: seq<(int, Slot)>)
    requires forall e <- inventory + equipment :: SlotOk(e.1)
    ensures WorldOk(Outfit(inventory, equipment)) && WorldOk(Load(Load(Outfit(inventory, equipment), true), false))
  {
    forall e | e in inventory ensures SlotOk(e.1) { assert e in inventory + equipment; }
    forall e | e in equipment ensures SlotOk(e.1) { assert e in inventory + equipment; }
    forall i ensures SlotOk(LastFor(inventory, i)) && SlotOk(LastFor(equipment, i)) {
      LastForOk(inventory, i);
      LastForOk(equipment, i);
    }
    LoadKeeps(Outfit(inventory, equipment), true);
    LoadKeeps(Load(Outfit(inventory, equipment), true), false);
  }

  /** The condition for a reload to do anything. */
  predicate CanReload(w: InventoryModel.World, isPrimary: bool)
    requires |w| >= BOX
  {
    var gun, mag := w[Gun(isPrimary)], w[Mag(isPrimary)];
    !gun.IsEmpty() && HasSpec(gun.blueprint) && mag.quantity < MAX_AMMO && Available(w, AmmoType(gun.blueprint), 0) > 0
  }

  /** A reload changes something exactly when the weapon takes ammunition, its magazine has room and the
      inventory has some. */
  lemma ReloadsIff(w: InventoryModel.World, isPrimary: bool)
    requires WorldOk(w)
    ensures Load(w, isPrimary) != w <==> CanReload(w, isPrimary)
  {
    var gun, mag := w[Gun(isPrimary)], Mag(isPrimary);
    if !gun.IsEmpty() && HasSpec(gun.blueprint) {
      var ammo, need := AmmoType(gun.blueprint), MAX_AMMO - w[mag].quantity;
      AvailableIsPositive(w, ammo, 0);
      LoadAmount(w, mag, ammo, need, 0);
      if Available(w, ammo, 0) == 0 { NothingToLoad(w, mag, ammo, need, 0); }
    }
  }

  lemma {:induction false} NothingToLoad(w: InventoryModel.World, mag: nat, ammo: nat, need: int, i: nat)
    requires Loadable(w, mag, ammo, i) && Available(w, ammo, i) == 0
    ensures LoadFrom(w, mag, ammo, need, i) == w
    decreases INVENTORY_SLOT_COUNT - i
  {
    if i < INVENTORY_SLOT_COUNT {
      AvailableIsPositive(w, ammo, i + 1);
      NothingToLoad(w, mag, ammo, need, i + 1);
    }
  }

  lemma {:induction false} SameEmpties(w: InventoryModel.World, w': InventoryModel.World, i: nat)
    requires i <= INVENTORY_SLOT_COUNT <= |w| && |w'| == |w|
    requires forall k | i <= k < INVENTORY_SLOT_COUNT :: w[k].IsEmpty() <==> w'[k].IsEmpty()
    ensures FirstEmpty(w, i) == FirstEmpty(w', i)
    decreases INVENTORY_SLOT_COUNT - i
  {
    if i < INVENTORY_SLOT_COUNT { SameEmpties(w, w', i + 1); }
  }

  // ---- Containers ----

  class Container {
    const slots: array<Slot>
    var version: nat

    constructor (volume: nat)
      ensures fresh(slots) && slots.Length == volume && version == 0 && forall k | 0 <= k < volume :: slots[k] == EMPTY
    {
      slots := new Slot[volume](_ => EMPTY);
      version := 0;
    }

    method PlaceItem(k: nat, blueprint: nat, quantity: int) returns (ok: bool)
      modifies slots
      ensures ok == (k < slots.Length && quantity > 0)
      ensures slots[..] == if ok then old(slots[..])[k := Slot(blueprint, quantity)] else old(slots[..])
    {
      if k >= slots.Length || quantity <= 0 { return false; }
      slots[k] := Slot(blueprint, quantity);
      ok := true;
    }

    method PlaceNext(next: nat, item: Slot, ghost things: InventoryModel.World)
      requires next == |things| < slots.Length == BOX && slots[..next] == things && item.quantity > 0
      requires forall k | next <= k < BOX :: slots[k] == EMPTY
      modifies slots
      ensures slots[..next + 1] == things + [item] && forall k | next < k < BOX :: slots[k] == EMPTY
    {
      var placed := PlaceItem(next, item.blueprint, item.quantity);
      ghost var w := slots[..];
      assert w[..next] == things && w[next] == item;
      assert w[..next + 1] == w[..next] + [item];
    }

    /** A dead player's things, one slot each, in order and without gaps. */
    method FillFrom(inventory: PlayerInventory)
      requires inventory.Shape() && inventory.inventorySlots != slots && slots.Length == BOX
      requires forall i | 0 <= i < BOX :: SlotOk(inventory.World(inventory.inventorySlots)[i])
      requires forall k | 0 <= k < slots.Length :: slots[k] == EMPTY
      modifies slots
      ensures var things := NonEmpties(DropOrder(inventory.World(inventory.inventorySlots)));
        |things| <= BOX && slots[..|things|] == things && forall k | |things| <= k < BOX :: slots[k] == EMPTY
    {
      ghost var w := inventory.World(inventory.inventorySlots);
      var order :=
          [inventory.primaryWeapon, inventory.primaryMagazine, inventory.secondaryWeapon, inventory.secondaryMagazine,
          inventory.armor]
        + inventory.inventorySlots[..];
      assert order == DropOrder(w);
      var next := 0;
      var i := 0;
      while i < |order|
        invariant 0 <= next <= i <= |order| == BOX && |NonEmpties(order[..i])| == next
          && slots[..next] == NonEmpties(order[..i])
        invariant forall k | next <= k < BOX :: slots[k] == EMPTY
      {
        NonEmptiesNext(order, i);
        if !order[i].IsEmpty() {
          PlaceNext(next, order[i], NonEmpties(order[..i]));
          next := next + 1;
        }
        i := i + 1;
      }
      assert order[..i] == order;
    }
  }

  /** The row index a request means: one of the player's own slots or one of the open container's. */
  function Named(mine: bool, idx: int): int { if mine then idx else BOX + idx }

  predicate IndexOk(mine: bool, idx: int, volume: nat) { 0 <= idx < if mine then INVENTORY_SLOT_COUNT else volume }

  /** A request as it arrives: which slots, and which versions of their owners its sender saw. */
  datatype Request = Request(startMine: bool, startVersion: nat, startIdx: int, endMine: bool, endVersion: nat,
      endIdx: int,
                             kind: Interaction, quantity: int)

  /** It needs an open container unless both slots are the player's own, the current versions, and real slots. */
  predicate Admissible(r: Request, isOpen: bool, mine: nat, theirs: nat, volume: nat) {
    && (isOpen || (r.startMine && r.endMine))
    && r.startVersion == (if r.startMine then mine else theirs) && r.endVersion == (if r.endMine then mine else theirs)
    && IndexOk(r.startMine, r.startIdx, volume) && IndexOk(r.endMine, r.endIdx, volume)
  }

  /** The operation a request asks for. */
  function ActOf(r: Request): Op
    requires Named(r.startMine, r.startIdx) >= 0 && Named(r.endMine, r.endIdx) >= 0
  {
    Act(r.kind, Named(r.startMine, r.startIdx), Named(r.endMine, r.endIdx), r.quantity)
  }

  /** Moving, exchanging or merging between two named slots.  A request that is refused changes nothing. */
  method InteractContainerObject(inv: PlayerInventory, c: Container, isOpen: bool, r: Request) returns (ok: bool)
    requires inv.Valid(c.slots) && c.slots != inv.inventorySlots
    modifies inv`firstEmpty, inv`version, c`version, inv.inventorySlots, c.slots
    ensures inv.Tidy(c.slots)
    ensures ok <==>
      && Admissible(r, isOpen, old(inv.version), old(c.version), c.slots.Length)
      && InteractDeny(old(inv.World(c.slots)), r.kind, Named(r.startMine, r.startIdx), Named(r.endMine, r.endIdx),
        r.quantity) == OK
    ensures ok ==>
      InReach(old(inv.World(c.slots)), ActOf(r)) && inv.World(c.slots) == Apply(old(inv.World(c.slots)), ActOf(r))
    ensures !ok ==> inv.World(c.slots) == old(inv.World(c.slots))
    ensures inv.version == old(inv.version) + (if ok && (r.startMine || r.endMine) then 1 else 0)
    ensures c.version == old(c.version) + (if ok && !(r.startMine && r.endMine) then 1 else 0)
  {
    if !Admissible(r, isOpen, inv.version, c.version, c.slots.Length) { return false; }
    var startBox := if r.startMine then inv.inventorySlots else c.slots;
    var endBox := if r.endMine then inv.inventorySlots else c.slots;
    PlacesAre(inv, c.slots, r.startMine, r.startIdx);
    PlacesAre(inv, c.slots, r.endMine, r.endIdx);
    var same := startBox == endBox && r.startIdx == r.endIdx;
    var deny := Decide(same, startBox[r.startIdx], endBox[r.endIdx], r.kind, r.quantity);
    if deny != OK { return false; }
    Touch(inv, c.slots, startBox, r.startIdx, endBox, r.endIdx, r.kind, r.quantity);
    Bump(inv, c, r.startMine, r.endMine, old(inv.World(c.slots)));
    ok := true;
  }

  lemma PlacesAre(inv: PlayerInventory, box: array<Slot>, mine: bool, idx: int)
    requires inv.Shape() && box != inv.inventorySlots && IndexOk(mine, idx, box.Length)
    ensures 0 <= Named(mine, idx) < |inv.World(box)|
    ensures inv.World(box)[Named(mine, idx)] == if mine then inv.inventorySlots[idx] else box[idx]
  {
    inv.Reads(box, true);
  }

  method Decide(same: bool, start: Slot, end: Slot, kind: Interaction, quantity: int) returns (deny: Deny)
    ensures deny == SlotsDeny(same, start, end, kind, quantity)
  {
    if same { return SERVER_INTERNAL; }
    if start.IsEmpty() { return SLOT_EMPTY; }
    match kind {
      case Get =>
        if !end.IsEmpty() { return SLOT_NOT_EMPTY; }
        if quantity <= 0 || quantity > start.quantity { return INVALID_QUANTITY; }
      case Exchange =>
        if end.IsEmpty() { return SLOT_ALREADY_EMPTY; }
      case Merge =>
        if end.IsEmpty() { return SLOT_ALREADY_EMPTY; }
        if start.blueprint != end.blueprint { return BLUEPRINT_MISMATCH; }
        if start.Type() == WEAPON || start.Type() == ARMOR { return ITEM_TYPE_MISMATCH; }
        if quantity <= 0 || quantity > start.quantity { return INVALID_QUANTITY; }
    }
    deny := OK;
  }

  /** The two slots, by reference. */
  method Touch(inv: PlayerInventory, box: array<Slot>, startBox: array<Slot>, i: nat, endBox: array<Slot>, j: nat,
        kind: Interaction, quantity: int)
    requires inv.Shape() && box != inv.inventorySlots && startBox in {box, inv.inventorySlots}
      && endBox in {box, inv.inventorySlots}
    requires i < startBox.Length && j < endBox.Length
    requires SlotsDeny(startBox == endBox && i == j, startBox[i], endBox[j], kind, quantity) == OK
    modifies startBox, endBox
    ensures inv.World(box)
      == Interact(old(inv.World(box)), kind, Named(startBox != box, i), Named(endBox != box, j), quantity)
  {
    PlacesAre(inv, box, startBox != box, i);
    PlacesAre(inv, box, endBox != box, j);
    var start, end := startBox[i], endBox[j];
    if kind == Exchange {
      WriteAt(inv, box, startBox, i, end);
      WriteAt(inv, box, endBox, j, start);
    } else {
      WriteAt(inv, box, endBox, j, if kind == Get then Slot(start.blueprint, quantity)
          else end.(quantity := end.quantity + quantity));
      WriteAt(inv, box, startBox, i, Less(start, quantity));
    }
  }

  method WriteAt(inv: PlayerInventory, box: array<Slot>, a: array<Slot>, i: nat, s: Slot)
    requires inv.Shape() && box != inv.inventorySlots && a in {box, inv.inventorySlots} && i < a.Length
    modifies a
    ensures inv.World(box) == old(inv.World(box))[Named(a != box, i) := s]
  {
    a[i] := s;
    assert inv.World(box) == old(inv.World(box))[Named(a != box, i) := s];
  }

  /** The versions of those touched go up by one. */
  method Bump(inv: PlayerInventory, c: Container, startMine: bool, endMine: bool, ghost before: InventoryModel.World)
    requires inv.Shape() && c.slots != inv.inventorySlots && INVENTORY_SLOT_COUNT <= |before| == |inv.World(c.slots)|
    requires inv.firstEmpty == FirstEmpty(before, 0)
    requires !startMine && !endMine ==> forall k | 0 <= k < INVENTORY_SLOT_COUNT :: inv.World(c.slots)[k] == before[k]
    modifies inv`firstEmpty, inv`version, c`version
    ensures inv.World(c.slots) == old(inv.World(c.slots)) && inv.Tidy(c.slots)
    ensures inv.version == old(inv.version) + (if startMine || endMine then 1 else 0)
    ensures c.version == old(c.version) + (if startMine && endMine then 0 else 1)
  {
    if startMine || endMine {
      inv.UpdateFirstEmptySlotIndex(c.slots);
      inv.version := inv.version + 1;
    } else {
      SameEmptiesAbove(before, inv.World(c.slots));
    }
    if !startMine || !endMine { c.version := c.version + 1; }
  }

  /** Equipping or unequipping, in the order the message numbers them: primary, secondary, armor. */
  datatype EquipRequest = EquipRequest(equip: bool, slotType: nat, mine: bool, objectVersion: nat, myVersion: nat,
      idx: int)

  function OpOf(r: EquipRequest, place: nat): Op {
    if r.equip then (if r.slotType <= 1 then Equip(place, r.slotType == 0) else WearArmor(place))
    else if r.slotType <= 1 then Unequip(place, r.slotType == 0) else TakeOffArmor(place)
  }

  function DenyOf(w: InventoryModel.World, op: Op): Deny
    requires InReach(w, op)
  {
    match op
    case Equip(src, _) => EquipWeaponDeny(w, src)
    case Unequip(dst, isPrimary) => UnequipWeaponDeny(w, dst, isPrimary)
    case WearArmor(src) => EquipArmorDeny(w, src)
    case TakeOffArmor(dst) => UnequipArmorDeny(w, dst)
    case _ => OK
  }

  /** The slot an accepted request's answer names besides its own, or -1: where an unloaded magazine went. */
  function ToldSlot(w: InventoryModel.World, op: Op): int
    requires InReach(w, op)
  {
    match op
    case Equip(_, isPrimary) => UnloadSlot(w, isPrimary)
    case Unequip(dst, isPrimary) => UnloadSlot(Swap(w, dst, Gun(isPrimary)), isPrimary)
    case _ => -1
  }

  /** The action and slot exist, the container is open if it is named, and both versions are current. */
  predicate EquipAdmissible(r: EquipRequest, isOpen: bool, mine: nat, theirs: nat, volume: nat) {
    && r.slotType <= 2 && IndexOk(r.mine, r.idx, volume)
    && (if r.mine then r.objectVersion == mine else isOpen && r.objectVersion == theirs && r.myVersion == mine)
  }

  method RequestEquipItem(inv: PlayerInventory, c: Container, isOpen: bool, r: EquipRequest)
      returns (ok: bool, told: int)
    requires inv.Valid(c.slots) && c.slots != inv.inventorySlots
    modifies inv, c`version, inv.inventorySlots, c.slots
    ensures inv.Tidy(c.slots)
    ensures ok <==>
      && EquipAdmissible(r, isOpen, old(inv.version), old(c.version), c.slots.Length)
      && DenyOf(old(inv.World(c.slots)), OpOf(r, Named(r.mine, r.idx))) == OK
    ensures inv.World(c.slots) == if ok then Apply(old(inv.World(c.slots)), OpOf(r, Named(r.mine, r.idx)))
      else old(inv.World(c.slots))
    ensures inv.version == old(inv.version) + (if ok then 1 else 0)
    ensures c.version == old(c.version) + (if ok && !r.mine then 1 else 0)
    ensures told == if ok then ToldSlot(old(inv.World(c.slots)), OpOf(r, Named(r.mine, r.idx))) else -1
  {
    if !EquipAdmissible(r, isOpen, inv.version, c.version, c.slots.Length) { return false, -1; }
    PlacesAre(inv, c.slots, r.mine, r.idx);
    ok, told := Dress(inv, c, r);
    if ok && !r.mine { c.version := c.version + 1; }
  }

  /** The slot by reference, whichever array it is in. */
  method Dress(inv: PlayerInventory, c: Container, r: EquipRequest) returns (ok: bool, told: int)
    requires inv.Valid(c.slots) && c.slots != inv.inventorySlots && r.slotType <= 2
      && IndexOk(r.mine, r.idx, c.slots.Length)
    modifies inv, inv.inventorySlots, c.slots
    ensures inv.Tidy(c.slots)
    ensures InReach(old(inv.World(c.slots)), OpOf(r, Named(r.mine, r.idx)))
    ensures ok == (DenyOf(old(inv.World(c.slots)), OpOf(r, Named(r.mine, r.idx))) == OK)
    ensures inv.World(c.slots) == if ok then Apply(old(inv.World(c.slots)), OpOf(r, Named(r.mine, r.idx)))
      else old(inv.World(c.slots))
    ensures inv.version == old(inv.version) + (if ok then 1 else 0)
    ensures told == if ok then ToldSlot(old(inv.World(c.slots)), OpOf(r, Named(r.mine, r.idx))) else -1
  {
    var deny;
    told := -1;
    var src := if r.mine then inv.inventorySlots else c.slots;
    inv.PlaceIs(src, r.idx, c.slots);
    inv.ValidIsReady(src, r.idx, r.slotType == 0, c.slots);
    if r.slotType <= 1 && r.equip {
      deny, told := inv.EquipWeaponFromSlot(src, r.idx, r.slotType == 0, c.slots);
    } else if r.slotType <= 1 {
      deny, told := inv.UnequipWeaponToSlot(src, r.idx, r.slotType == 0, c.slots);
    } else if r.equip {
      deny := inv.EquipArmorFromSlot(src, r.idx, c.slots);
    } else {
      deny := inv.UnequipArmorToSlot(src, r.idx, c.slots);
    }
    ok := deny == OK;
  }

  lemma SameEmptiesAbove(w: InventoryModel.World, w': InventoryModel.World)
    requires INVENTORY_SLOT_COUNT <= |w| == |w'| && forall k | 0 <= k < INVENTORY_SLOT_COUNT :: w'[k] == w[k]
    ensures FirstEmpty(w, 0) == FirstEmpty(w', 0)
  {
    SameEmpties(w, w', 0);
  }
}
