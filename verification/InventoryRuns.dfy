/** Any run of inventory operations by one player on what is in reach: what is kept, and what can be lost. */
module InventoryRuns {
  import opened InventoryModel

  datatype Op =
    | Equip(src: nat, isPrimary: bool)
    | Unequip(dst: nat, isPrimary: bool)
    | WearArmor(src: nat)
    | TakeOffArmor(dst: nat)
    | Reload(isPrimary: bool)
    | Act(kind: Interaction, start: nat, end: nat, quantity: int)
    | Shoot(isPrimary: bool)

  /** Requests name inventory slots and slots of the open container. */
  predicate InReach(w: World, op: Op) {
    |w| >= BOX && match op
      case Equip(src, _) => Reachable(w, src)
      case Unequip(dst, _) => Reachable(w, dst)
      case WearArmor(src) => Reachable(w, src)
      case TakeOffArmor(dst) => Reachable(w, dst)
      case Act(_, start, end, _) => Reachable(w, start) && Reachable(w, end)
      case _ => true
  }

  function Apply(w: World, op: Op): (w': World)
    requires InReach(w, op)
    ensures |w'| == |w|
  {
    match op
    case Equip(src, isPrimary) => EquipWeapon(w, src, isPrimary)
    case Unequip(dst, isPrimary) => UnequipWeapon(w, dst, isPrimary)
    case WearArmor(src) => if EquipArmorDeny(w, src) != OK then w else Swap(w, src, ARMOR_SLOT)
    case TakeOffArmor(dst) => if UnequipArmorDeny(w, dst) != OK then w else Swap(w, dst, ARMOR_SLOT)
    case Reload(isPrimary) => Load(w, isPrimary)
    case Act(kind, start, end, quantity) => Interact(w, kind, start, end, quantity)
    case Shoot(isPrimary) => InventoryModel.Fire(w, isPrimary)
  }

  /** How much of b an operation uses up: the magazine an equip or unequip had no room for, or one round. */
  function Lost(w: World, op: Op, b: nat): int
    requires InReach(w, op)
  {
    match op
    case Equip(src, p) => if EquipWeaponDeny(w, src) == OK && Spills(w, p) then Qty(w[Mag(p)], b) else 0
    case Unequip(dst, p) =>
      if UnequipWeaponDeny(w, dst, p) == OK && Spills(Swap(w, dst, Gun(p)), p) then Qty(w[Mag(p)], b) else 0
    case Shoot(p) => if !w[Mag(p)].IsEmpty() && w[Mag(p)].blueprint == b then 1 else 0
    case _ => 0
  }

  // ---- Keeping the invariant ----

  lemma EquipKeeps(w: World, src: nat, isPrimary: bool)
    requires WorldOk(w) && Reachable(w, src)
    ensures WorldOk(EquipWeapon(w, src, isPrimary)) && (Armed(w) ==> Armed(EquipWeapon(w, src, isPrimary)))
  {
    if EquipWeaponDeny(w, src) == OK {
      UnloadKeeps(w, isPrimary);
      assert w[Mag(isPrimary)].IsEmpty() || w[src].blueprint != w[Mag(isPrimary)].blueprint;
      assert Unload(w, isPrimary)[src] == w[src];
    }
  }

  lemma UnequipKeeps(w: World, dst: nat, isPrimary: bool)
    requires WorldOk(w) && Reachable(w, dst)
    ensures WorldOk(UnequipWeapon(w, dst, isPrimary)) && (Armed(w) ==> Armed(UnequipWeapon(w, dst, isPrimary)))
  {
    if UnequipWeaponDeny(w, dst, isPrimary) == OK {
      UnloadKeeps(Swap(w, dst, Gun(isPrimary)), isPrimary);
    }
  }

  lemma ArmorKeeps(w: World, op: Op)
    requires WorldOk(w) && InReach(w, op) && (op.WearArmor? || op.TakeOffArmor?)
    ensures WorldOk(Apply(w, op)) && (Armed(w) ==> Armed(Apply(w, op)))
  {}

  lemma ActKeeps(w: World, op: Op)
    requires WorldOk(w) && InReach(w, op) && op.Act?
    ensures WorldOk(Apply(w, op)) && (Armed(w) ==> Armed(Apply(w, op)))
  {}

  lemma ShootKeeps(w: World, isPrimary: bool)
    requires WorldOk(w)
    ensures WorldOk(InventoryModel.Fire(w, isPrimary)) && (Armed(w) ==> Armed(InventoryModel.Fire(w, isPrimary)))
  {}

  lemma ApplyKeeps(w: World, op: Op)
    requires WorldOk(w) && InReach(w, op)
    ensures WorldOk(Apply(w, op)) && (Armed(w) ==> Armed(Apply(w, op)))
  {
    match op
    case Equip(src, p) => EquipKeeps(w, src, p);
    case Unequip(dst, p) => UnequipKeeps(w, dst, p);
    case Reload(p) => LoadKeeps(w, p);
    case Act(_, _, _, _) => ActKeeps(w, op);
    case Shoot(p) => ShootKeeps(w, p);
    case _ => ArmorKeeps(w, op);
  }

  // ---- Conservation ----

  lemma EquipConserves(w: World, src: nat, isPrimary: bool, b: nat)
    requires WorldOk(w) && Reachable(w, src) && b != 0
    ensures Total(EquipWeapon(w, src, isPrimary), b) == Total(w, b) - Lost(w, Equip(src, isPrimary), b)
  {
    if EquipWeaponDeny(w, src) == OK {
      UnloadConserves(w, isPrimary, b);
      SwapConserves(Unload(w, isPrimary), src, Gun(isPrimary), b);
    }
  }

  lemma UnequipConserves(w: World, dst: nat, isPrimary: bool, b: nat)
    requires WorldOk(w) && Reachable(w, dst) && b != 0
    ensures Total(UnequipWeapon(w, dst, isPrimary), b) == Total(w, b) - Lost(w, Unequip(dst, isPrimary), b)
  {
    if UnequipWeaponDeny(w, dst, isPrimary) == OK {
      SwapConserves(w, dst, Gun(isPrimary), b);
      UnloadConserves(Swap(w, dst, Gun(isPrimary)), isPrimary, b);
    }
  }

  lemma ActConserves(w: World, op: Op, b: nat)
    requires WorldOk(w) && InReach(w, op) && op.Act? && b != 0
    ensures Total(Apply(w, op), b) == Total(w, b)
  {
    if InteractDeny(w, op.kind, op.start, op.end, op.quantity) == OK {
      if op.kind == Exchange {
        SwapConserves(w, op.start, op.end, b);
      } else {
        PourConserves(w, op.start, op.end, op.quantity, b);
      }
    }
  }

  lemma ReloadConserves(w: World, isPrimary: bool, b: nat)
    requires WorldOk(w) && b != 0
    ensures Total(Load(w, isPrimary), b) == Total(w, b)
  {
    var gun, mag := w[Gun(isPrimary)], Mag(isPrimary);
    if !gun.IsEmpty() && HasSpec(gun.blueprint) {
      LoadConserves(w, mag, AmmoType(gun.blueprint), MAX_AMMO - w[mag].quantity, 0, b);
    }
  }

  /** Each operation keeps the total of every kind over player and container, except for what it is said to lose. */
  lemma ApplyConserves(w: World, op: Op, b: nat)
    requires WorldOk(w) && InReach(w, op) && b != 0
    ensures Total(Apply(w, op), b) == Total(w, b) - Lost(w, op, b) && Lost(w, op, b) >= 0
  {
    match op
    case Equip(src, p) => EquipConserves(w, src, p, b);
    case Unequip(dst, p) => UnequipConserves(w, dst, p, b);
    case WearArmor(src) => SwapConserves(w, src, ARMOR_SLOT, b);
    case TakeOffArmor(dst) => SwapConserves(w, dst, ARMOR_SLOT, b);
    case Reload(p) => ReloadConserves(w, p, b);
    case Act(_, _, _, _) => ActConserves(w, op, b);
    case Shoot(p) => if !w[Mag(p)].IsEmpty() { TotalPut(w, Mag(p), Less(w[Mag(p)], 1), b); }
  }

  function After(w: World, ops: seq<Op>): (w': World)
    requires |w| >= BOX && forall op <- ops :: InReach(w, op)
    ensures |w'| == |w|
  {
    if ops == [] then w
    else
      assert forall op <- ops[..|ops| - 1] :: op in ops;
      var p := After(w, ops[..|ops| - 1]);
      assert InReach(p, ops[|ops| - 1]) by { assert InReach(w, ops[|ops| - 1]); }
      Apply(p, ops[|ops| - 1])
  }

  function LostSoFar(w: World, ops: seq<Op>, b: nat): int
    requires |w| >= BOX && forall op <- ops :: InReach(w, op)
  {
    if ops == [] then 0
    else
      assert forall op <- ops[..|ops| - 1] :: op in ops;
      assert InReach(After(w, ops[..|ops| - 1]), ops[|ops| - 1]) by { assert InReach(w, ops[|ops| - 1]); }
      LostSoFar(w, ops[..|ops| - 1], b) + Lost(After(w, ops[..|ops| - 1]), ops[|ops| - 1], b)
  }

  /** Over any run nothing appears from nowhere and nothing is lost unaccounted for; the magazines stay right
      for their weapons, and a player who had a weapon in hand still has one. */
  lemma {:induction false} RunConserves(w: World, ops: seq<Op>, b: nat)
    requires WorldOk(w) && b != 0 && forall op <- ops :: InReach(w, op)
    ensures WorldOk(After(w, ops)) && (Armed(w) ==> Armed(After(w, ops)))
    ensures Total(After(w, ops), b) + LostSoFar(w, ops, b) == Total(w, b) && LostSoFar(w, ops, b) >= 0
  {
    if ops != [] {
      assert forall op <- ops[..|ops| - 1] :: op in ops;
      var p := After(w, ops[..|ops| - 1]);
      assert InReach(p, ops[|ops| - 1]) by { assert InReach(w, ops[|ops| - 1]); }
      RunConserves(w, ops[..|ops| - 1], b);
      ApplyKeeps(p, ops[|ops| - 1]);
      ApplyConserves(p, ops[|ops| - 1], b);
    }
  }

  // ---- What a dead player leaves behind ----

  function NonEmpties(s: World): World {
    if s == [] then []
    else NonEmpties(s[..|s| - 1]) + (if s[|s| - 1].IsEmpty() then [] else [s[|s| - 1]])
  }

  lemma NonEmptiesNext(s: World, i: nat)
    requires i < |s|
    ensures NonEmpties(s[..i + 1]) == NonEmpties(s[..i]) + if s[i].IsEmpty() then [] else [s[i]]
  {
    assert s[..i + 1][..i] == s[..i];
  }

  /** The order in which a loot container is filled: weapons with their magazines, armor, inventory. */
  function DropOrder(w: World): World
    requires |w| >= BOX
  {
    w[PRIMARY..BOX] + w[..INVENTORY_SLOT_COUNT]
  }

  lemma {:induction false} TotalConcat(p: World, q: World, b: nat)
    ensures Total(p + q, b) == Total(p, b) + Total(q, b)
  {
    if q == [] {
      assert p + q == p;
    } else {
      TotalConcat(p, q[..|q| - 1], b);
      assert (p + q)[..|p + q| - 1] == p + q[..|q| - 1];
    }
  }

  lemma {:induction false} NonEmptiesKeepAll(s: World, b: nat)
    requires b != 0
    ensures Total(NonEmpties(s), b) == Total(s, b) && |NonEmpties(s)| <= |s|
  {
    if s != [] {
      var r, last := s[..|s| - 1], s[|s| - 1];
      NonEmptiesKeepAll(r, b);
      if last.IsEmpty() {
        assert NonEmpties(s) == NonEmpties(r);
      } else {
        assert (NonEmpties(r) + [last])[..|NonEmpties(r)|] == NonEmpties(r);
      }
    }
  }

  /** The container holds everything the player had, and thirty slots are enough for it. */
  lemma DropKeepsAll(w: World, b: nat)
    requires |w| >= BOX && b != 0
    ensures |NonEmpties(DropOrder(w))| <= BOX && Total(NonEmpties(DropOrder(w)), b) == Total(w[..BOX], b)
  {
    NonEmptiesKeepAll(DropOrder(w), b);
    TotalConcat(w[PRIMARY..BOX], w[..INVENTORY_SLOT_COUNT], b);
    TotalConcat(w[..INVENTORY_SLOT_COUNT], w[PRIMARY..BOX], b);
    assert w[..INVENTORY_SLOT_COUNT] + w[PRIMARY..BOX] == w[..BOX];
  }
}
