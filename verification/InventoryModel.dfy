/** Everything a player's hands can reach, as one row of slots: the 25 inventory slots, then the gear, then
    the slots of the open container.  Two references to one slot are two equal indices. */
module InventoryModel {

  datatype ItemType = NONE | WEAPON | ARMOR | AMMO | MISC

  datatype Slot = Slot(blueprint: nat, quantity: int) {
    predicate IsEmpty() { quantity <= 0 && blueprint == 0 }
    function Type(): ItemType { TypeOf(blueprint) }
  }

  const EMPTY := Slot(0, 0)

  const INVENTORY_SLOT_COUNT := 25
  const PRIMARY := 25
  const PRIMARY_MAG := 26
  const SECONDARY := 27
  const SECONDARY_MAG := 28
  const ARMOR_SLOT := 29
  const BOX := 30
  const MAX_AMMO := 30

  type World = seq<Slot>

  function TypeOf(blueprint: nat): ItemType {
    if blueprint in {1, 2, 3} then WEAPON
    else if blueprint in {4, 8} then ARMOR
    else if blueprint in {5, 6} then AMMO
    else if blueprint == 7 then MISC
    else NONE
  }

  /** Every weapon has a specification, and nothing else has. */
  predicate HasSpec(blueprint: nat) { TypeOf(blueprint) == WEAPON }

  function AmmoType(blueprint: nat): nat
    requires HasSpec(blueprint)
  {
    if blueprint == 1 then 6 else 5
  }

  function Gun(isPrimary: bool): nat { if isPrimary then PRIMARY else SECONDARY }
  function Mag(isPrimary: bool): nat { if isPrimary then PRIMARY_MAG else SECONDARY_MAG }

  // ---- The invariant ----

  /** A slot holds at least one of something, or nothing at all. */
  predicate SlotOk(s: Slot) { if s.blueprint == 0 then s.quantity == 0 else s.quantity > 0 }

  /** A loaded magazine holds its weapon's ammunition and no more than fits; an empty weapon slot has none. */
  predicate MagOk(gun: Slot, mag: Slot) {
    !mag.IsEmpty() ==> HasSpec(gun.blueprint) && mag.blueprint == AmmoType(gun.blueprint) && mag.quantity <= MAX_AMMO
  }

  ghost predicate WorldOk(w: World) {
    && |w| >= BOX && (forall i | 0 <= i < |w| :: SlotOk(w[i]))
    && MagOk(w[PRIMARY], w[PRIMARY_MAG]) && MagOk(w[SECONDARY], w[SECONDARY_MAG])
  }

  predicate Armed(w: World)
    requires |w| >= BOX
  {
    !w[PRIMARY].IsEmpty() || !w[SECONDARY].IsEmpty()
  }

  /** The slots a request can name: never the gear. */
  predicate Reachable(w: World, i: nat) { i < INVENTORY_SLOT_COUNT || BOX <= i < |w| }

  // ---- Operations ----

  function Swap(w: World, i: nat, j: nat): World
    requires i < |w| && j < |w|
  {
    w[i := w[j]][j := w[i]]
  }

  /** The least empty inventory slot from i on, or -1. */
  function FirstEmpty(w: World, i: nat): (k: int)
    requires i <= INVENTORY_SLOT_COUNT <= |w|
    ensures k == -1 ==> forall j | i <= j < INVENTORY_SLOT_COUNT :: !w[j].IsEmpty()
    ensures k != -1 ==> i <= k < INVENTORY_SLOT_COUNT && w[k].IsEmpty() && forall j | i <= j < k :: !w[j].IsEmpty()
    decreases INVENTORY_SLOT_COUNT - i
  {
    if i == INVENTORY_SLOT_COUNT then -1 else if w[i].IsEmpty() then i else FirstEmpty(w, i + 1)
  }

  /** The least inventory slot from i on that already holds the blueprint, or -1. */
  function FirstStack(w: World, blueprint: nat, i: nat): (k: int)
    requires i <= INVENTORY_SLOT_COUNT <= |w|
    ensures k == -1 ==> forall j | i <= j < INVENTORY_SLOT_COUNT :: w[j].IsEmpty() || w[j].blueprint != blueprint
    ensures k != -1 ==> i <= k < INVENTORY_SLOT_COUNT && !w[k].IsEmpty() && w[k].blueprint == blueprint
    ensures k != -1 ==> forall j | i <= j < k :: w[j].IsEmpty() || w[j].blueprint != blueprint
    decreases INVENTORY_SLOT_COUNT - i
  {
    if i == INVENTORY_SLOT_COUNT then -1
    else if !w[i].IsEmpty() && w[i].blueprint == blueprint then i
    else FirstStack(w, blueprint, i + 1)
  }

  function Min(a: int, b: int): int { if a <= b then a else b }

  /** What is left of a slot after taking n from it. */
  function Less(s: Slot, n: int): Slot { if s.quantity - n <= 0 then EMPTY else s.(quantity := s.quantity - n) }

  function More(s: Slot, blueprint: nat, n: int): Slot {
    if s.IsEmpty() then Slot(blueprint, n) else s.(quantity := s.quantity + n)
  }

  /** Moves n of slot i onto slot j. */
  function Pour(w: World, i: nat, j: nat, n: int): World
    requires i < |w| && j < |w|
  {
    w[j := More(w[j], w[i].blueprint, n)][i := Less(w[i], n)]
  }

  /** Fills the magazine with up to need rounds from the inventory slots i and on, lowest first. */
  function LoadFrom(w: World, mag: nat, ammo: nat, need: int, i: nat): (w': World)
    requires |w| >= BOX && INVENTORY_SLOT_COUNT <= mag < |w| && i <= INVENTORY_SLOT_COUNT
    ensures |w'| == |w|
    decreases INVENTORY_SLOT_COUNT - i
  {
    if i == INVENTORY_SLOT_COUNT || need <= 0 then w
    else if w[i].IsEmpty() || w[i].blueprint != ammo then LoadFrom(w, mag, ammo, need, i + 1)
    else
      var take := Min(w[i].quantity, need);
      LoadFrom(Pour(w, i, mag, take), mag, ammo, need - take, i + 1)
  }

  function Load(w: World, isPrimary: bool): (w': World)
    requires |w| >= BOX
    ensures |w'| == |w|
  {
    var gun, mag := w[Gun(isPrimary)], Mag(isPrimary);
    if gun.IsEmpty() || !HasSpec(gun.blueprint) then w
    else LoadFrom(w, mag, AmmoType(gun.blueprint), MAX_AMMO - w[mag].quantity, 0)
  }

  /** Empties a magazine onto the first stack of its kind, else into the first empty slot, else away. */
  function Unload(w: World, isPrimary: bool): (w': World)
    requires |w| >= BOX
    ensures |w'| == |w|
  {
    var mag := Mag(isPrimary);
    var k := FirstStack(w, w[mag].blueprint, 0);
    var e := FirstEmpty(w, 0);
    if w[mag].IsEmpty() then w
    else if k != -1 then Pour(w, mag, k, w[mag].quantity)
    else if e != -1 then w[e := w[mag]][mag := EMPTY]
    else w[mag := EMPTY]
  }

  /** The inventory slot the client is told the rounds went to, or -1. */
  function UnloadSlot(w: World, isPrimary: bool): int
    requires |w| >= BOX
  {
    var mag := w[Mag(isPrimary)];
    if mag.IsEmpty() then -1 else if FirstStack(w, mag.blueprint, 0) != -1 then FirstStack(w, mag.blueprint, 0)
        else FirstEmpty(w, 0)
  }

  /** The rounds an unloading throws away. */
  predicate Spills(w: World, isPrimary: bool)
    requires |w| >= BOX
  {
    !w[Mag(isPrimary)].IsEmpty() && FirstStack(w, w[Mag(isPrimary)].blueprint, 0) == -1 && FirstEmpty(w, 0) == -1
  }

  datatype Deny = OK | SLOT_EMPTY | ITEM_TYPE_MISMATCH | BARE_HANDED | SLOT_NOT_EMPTY | SLOT_ALREADY_EMPTY
    | INVALID_QUANTITY | BLUEPRINT_MISMATCH | SERVER_INTERNAL

  function EquipWeaponDeny(w: World, src: nat): Deny
    requires src < |w|
  {
    if w[src].IsEmpty() then SLOT_EMPTY else if w[src].Type() != WEAPON then ITEM_TYPE_MISMATCH else OK
  }

  function EquipWeapon(w: World, src: nat, isPrimary: bool): World
    requires |w| >= BOX && src < |w|
  {
    if EquipWeaponDeny(w, src) != OK then w else Swap(Unload(w, isPrimary), src, Gun(isPrimary))
  }

  function UnequipWeaponDeny(w: World, dst: nat, isPrimary: bool): Deny
    requires |w| >= BOX && dst < |w|
  {
    if w[Gun(isPrimary)].IsEmpty() then SLOT_EMPTY
    else if w[dst].IsEmpty() then (if w[Gun(!isPrimary)].IsEmpty() then BARE_HANDED else OK)
    else if w[dst].Type() != WEAPON then ITEM_TYPE_MISMATCH
    else OK
  }

  function UnequipWeapon(w: World, dst: nat, isPrimary: bool): World
    requires |w| >= BOX && dst < |w|
  {
    if UnequipWeaponDeny(w, dst, isPrimary) != OK then w else Unload(Swap(w, dst, Gun(isPrimary)), isPrimary)
  }

  function EquipArmorDeny(w: World, src: nat): Deny
    requires src < |w|
  {
    if w[src].IsEmpty() then SLOT_EMPTY else if w[src].Type() != ARMOR then ITEM_TYPE_MISMATCH else OK
  }

  function UnequipArmorDeny(w: World, dst: nat): Deny
    requires |w| >= BOX && dst < |w|
  {
    if w[ARMOR_SLOT].IsEmpty() then SLOT_EMPTY
    else if !w[dst].IsEmpty() && w[dst].Type() != ARMOR then ITEM_TYPE_MISMATCH
    else OK
  }

  datatype Interaction = Get | Exchange | Merge

  function SlotsDeny(same: bool, start: Slot, end: Slot, kind: Interaction, quantity: int): Deny {
    if same then SERVER_INTERNAL
    else if start.IsEmpty() then SLOT_EMPTY
    else match kind
      case Get =>
          if !end.IsEmpty() then SLOT_NOT_EMPTY else if !(0 < quantity <= start.quantity) then INVALID_QUANTITY else OK
      case Exchange => if end.IsEmpty() then SLOT_ALREADY_EMPTY else OK
      case Merge =>
        if end.IsEmpty() then SLOT_ALREADY_EMPTY
        else if start.blueprint != end.blueprint then BLUEPRINT_MISMATCH
        else if start.Type() == WEAPON || start.Type() == ARMOR then ITEM_TYPE_MISMATCH
        else if !(0 < quantity <= start.quantity) then INVALID_QUANTITY
        else OK
  }

  function InteractDeny(w: World, kind: Interaction, start: nat, end: nat, quantity: int): Deny
    requires start < |w| && end < |w|
  {
    SlotsDeny(start == end, w[start], w[end], kind, quantity)
  }

  function Interact(w: World, kind: Interaction, start: nat, end: nat, quantity: int): World
    requires start < |w| && end < |w|
  {
    if InteractDeny(w, kind, start, end, quantity) != OK then w
    else if kind == Exchange then Swap(w, start, end)
    else Pour(w, start, end, quantity)
  }

  function Fire(w: World, isPrimary: bool): World
    requires |w| >= BOX
  {
    var mag := Mag(isPrimary);
    if w[mag].IsEmpty() || w[mag].quantity <= 0 then w else w[mag := Less(w[mag], 1)]
  }

  // ---- How much there is of each thing ----

  function Qty(s: Slot, b: nat): int { if s.blueprint == b then s.quantity else 0 }

  function Total(w: World, b: nat): int {
    if w == [] then 0 else Total(w[..|w| - 1], b) + Qty(w[|w| - 1], b)
  }

  lemma {:induction false} TotalPut(w: World, i: nat, s: Slot, b: nat)
    requires i < |w|
    ensures Total(w[i := s], b) == Total(w, b) - Qty(w[i], b) + Qty(s, b)
  {
    var n := |w| - 1;
    if i == n {
      assert w[i := s][..n] == w[..n];
    } else {
      TotalPut(w[..n], i, s, b);
      assert w[i := s][..n] == w[..n][i := s];
    }
  }

  lemma SwapConserves(w: World, i: nat, j: nat, b: nat)
    requires i < |w| && j < |w| && i != j
    ensures Total(Swap(w, i, j), b) == Total(w, b)
  {
    TotalPut(w, i, w[j], b);
    TotalPut(w[i := w[j]], j, w[i], b);
  }

  lemma PourConserves(w: World, i: nat, j: nat, n: int, b: nat)
    requires i < |w| && j < |w| && i != j && b != 0 && SlotOk(w[i]) && SlotOk(w[j])
    requires 0 < n <= w[i].quantity && (w[j].IsEmpty() || w[j].blueprint == w[i].blueprint)
    ensures Total(Pour(w, i, j, n), b) == Total(w, b)
  {
    TotalPut(w, j, More(w[j], w[i].blueprint, n), b);
    TotalPut(w[j := More(w[j], w[i].blueprint, n)], i, Less(w[i], n), b);
  }

  /** Reloading moves rounds and loses none. */
  lemma {:induction false} LoadConserves(w: World, mag: nat, ammo: nat, need: int, i: nat, b: nat)
    requires |w| >= BOX && INVENTORY_SLOT_COUNT <= mag < |w| && i <= INVENTORY_SLOT_COUNT && b != 0
    requires (forall k | 0 <= k < |w| :: SlotOk(w[k])) && (w[mag].IsEmpty() || w[mag].blueprint == ammo) && ammo != 0
    ensures Total(LoadFrom(w, mag, ammo, need, i), b) == Total(w, b)
    decreases INVENTORY_SLOT_COUNT - i
  {
    if i < INVENTORY_SLOT_COUNT && need > 0 {
      if w[i].IsEmpty() || w[i].blueprint != ammo {
        LoadConserves(w, mag, ammo, need, i + 1, b);
      } else {
        var take := Min(w[i].quantity, need);
        PourConserves(w, i, mag, take, b);
        LoadConserves(Pour(w, i, mag, take), mag, ammo, need - take, i + 1, b);
      }
    }
  }

  /** What the inventory slots from i on hold of one kind of ammunition. */
  function Available(w: World, ammo: nat, i: nat): int
    requires i <= INVENTORY_SLOT_COUNT <= |w|
    decreases INVENTORY_SLOT_COUNT - i
  {
    if i == INVENTORY_SLOT_COUNT then 0 else Qty(w[i], ammo) + Available(w, ammo, i + 1)
  }

  lemma {:induction false} AvailableFrame(w: World, w': World, ammo: nat, i: nat)
    requires i <= INVENTORY_SLOT_COUNT <= |w| && |w'| == |w|
    requires forall k | i <= k < INVENTORY_SLOT_COUNT :: w'[k] == w[k]
    ensures Available(w', ammo, i) == Available(w, ammo, i)
    decreases INVENTORY_SLOT_COUNT - i
  {
    if i < INVENTORY_SLOT_COUNT { AvailableFrame(w, w', ammo, i + 1); }
  }

  lemma {:induction false} AvailableIsPositive(w: World, ammo: nat, i: nat)
    requires i <= INVENTORY_SLOT_COUNT <= |w| && forall k | 0 <= k < |w| :: SlotOk(w[k])
    ensures Available(w, ammo, i) >= 0
    decreases INVENTORY_SLOT_COUNT - i
  {
    if i < INVENTORY_SLOT_COUNT { AvailableIsPositive(w, ammo, i + 1); }
  }

  ghost predicate Loadable(w: World, mag: nat, ammo: nat, i: nat) {
    && |w| >= BOX && INVENTORY_SLOT_COUNT <= mag < |w| && i <= INVENTORY_SLOT_COUNT && ammo != 0
    && (forall k | 0 <= k < |w| :: SlotOk(w[k])) && (w[mag].IsEmpty() || w[mag].blueprint == ammo)
  }

  lemma PourLoadable(w: World, mag: nat, ammo: nat, need: int, i: nat)
    requires Loadable(w, mag, ammo, i) && i < INVENTORY_SLOT_COUNT && need > 0 && !w[i].IsEmpty()
      && w[i].blueprint == ammo
    ensures var take := Min(w[i].quantity, need);
      && 0 < take && Loadable(Pour(w, i, mag, take), mag, ammo, i + 1)
      && Qty(Pour(w, i, mag, take)[mag], ammo) == Qty(w[mag], ammo) + take
      && Qty(Pour(w, i, mag, take)[i], ammo) == Qty(w[i], ammo) - take
      && forall k | 0 <= k < |w| && k != i && k != mag :: Pour(w, i, mag, take)[k] == w[k]
  {}

  /** Reloading moves exactly as many rounds as fit and are there. */
  lemma {:induction false} LoadAmount(w: World, mag: nat, ammo: nat, need: int, i: nat)
    requires Loadable(w, mag, ammo, i) && need >= 0
    ensures Qty(LoadFrom(w, mag, ammo, need, i)[mag], ammo) == Qty(w[mag], ammo) + Min(need, Available(w, ammo, i))
    decreases INVENTORY_SLOT_COUNT - i
  {
    AvailableIsPositive(w, ammo, i);
    if i < INVENTORY_SLOT_COUNT && need > 0 {
      if w[i].IsEmpty() || w[i].blueprint != ammo {
        LoadAmount(w, mag, ammo, need, i + 1);
      } else {
        var take := Min(w[i].quantity, need);
        var p := Pour(w, i, mag, take);
        PourLoadable(w, mag, ammo, need, i);
        AvailableFrame(w, p, ammo, i + 1);
        AvailableIsPositive(w, ammo, i + 1);
        LoadAmount(p, mag, ammo, need - take, i + 1);
      }
    }
  }

  /** It touches the magazine and the inventory slots from i on, and leaves them well formed. */
  lemma {:induction false} LoadFrame(w: World, mag: nat, ammo: nat, need: int, i: nat)
    requires Loadable(w, mag, ammo, i)
    ensures var w' := LoadFrom(w, mag, ammo, need, i);
      && Loadable(w', mag, ammo, i)
      && (forall k | 0 <= k < |w| && !(i <= k < INVENTORY_SLOT_COUNT) && k != mag :: w'[k] == w[k])
    decreases INVENTORY_SLOT_COUNT - i
  {
    if i < INVENTORY_SLOT_COUNT && need > 0 {
      if w[i].IsEmpty() || w[i].blueprint != ammo {
        LoadFrame(w, mag, ammo, need, i + 1);
      } else {
        PourLoadable(w, mag, ammo, need, i);
        LoadFrame(Pour(w, i, mag, Min(w[i].quantity, need)), mag, ammo, need - Min(w[i].quantity, need), i + 1);
      }
    }
  }

  /** It works from the lowest slot up: one is touched only when none before it holds that ammunition any more. */
  lemma {:induction false} LoadLowestFirst(w: World, mag: nat, ammo: nat, need: int, i: nat, j: nat, k: nat)
    requires Loadable(w, mag, ammo, i) && i <= j < k < INVENTORY_SLOT_COUNT
    ensures var w' := LoadFrom(w, mag, ammo, need, i); w'[k] != w[k] ==> Qty(w'[j], ammo) == 0
    decreases INVENTORY_SLOT_COUNT - i
  {
    if i < INVENTORY_SLOT_COUNT && need > 0 {
      if w[i].IsEmpty() || w[i].blueprint != ammo {
        LoadFrame(w, mag, ammo, need, i + 1);
        if i < j { LoadLowestFirst(w, mag, ammo, need, i + 1, j, k); }
      } else {
        var take := Min(w[i].quantity, need);
        var p := Pour(w, i, mag, take);
        PourLoadable(w, mag, ammo, need, i);
        LoadFrame(p, mag, ammo, need - take, i + 1);
        if i < j { LoadLowestFirst(p, mag, ammo, need - take, i + 1, j, k); }
      }
    }
  }

  // ---- Each operation keeps the invariant ----

  lemma LoadKeeps(w: World, isPrimary: bool)
    requires WorldOk(w)
    ensures WorldOk(Load(w, isPrimary)) && (Armed(w) ==> Armed(Load(w, isPrimary)))
    ensures forall k | INVENTORY_SLOT_COUNT <= k < |w| && k != Mag(isPrimary) :: Load(w, isPrimary)[k] == w[k]
  {
    var gun, mag := w[Gun(isPrimary)], Mag(isPrimary);
    if !gun.IsEmpty() && HasSpec(gun.blueprint) {
      var ammo, need := AmmoType(gun.blueprint), MAX_AMMO - w[mag].quantity;
      LoadFrame(w, mag, ammo, need, 0);
      LoadAmount(w, mag, ammo, need, 0);
    }
  }

  lemma UnloadKeeps(w: World, isPrimary: bool)
    requires |w| >= BOX && forall i | 0 <= i < |w| :: SlotOk(w[i])
    ensures var w' := Unload(w, isPrimary);
      && (forall i | 0 <= i < |w| :: SlotOk(w'[i])) && w'[Mag(isPrimary)].IsEmpty()
      && (forall i | INVENTORY_SLOT_COUNT <= i < |w| && i != Mag(isPrimary) :: w'[i] == w[i])
      && (forall i | 0 <= i < INVENTORY_SLOT_COUNT && !w[i].IsEmpty()
        && w[i].blueprint != w[Mag(isPrimary)].blueprint :: w'[i] == w[i])
  {
    UnloadSlotIs(w, isPrimary);
    UnloadElsewhere(w, isPrimary);
  }

  lemma UnloadElsewhere(w: World, isPrimary: bool)
    requires |w| >= BOX && SlotOk(w[Mag(isPrimary)])
    ensures var w' := Unload(w, isPrimary);
      w'[Mag(isPrimary)] == EMPTY && forall i | INVENTORY_SLOT_COUNT <= i < |w| && i != Mag(isPrimary) :: w'[i] == w[i]
  {}

  /** Unloading moves the rounds, or throws away exactly the magazine when there is nowhere to put it. */
  lemma UnloadConserves(w: World, isPrimary: bool, b: nat)
    requires |w| >= BOX && (forall i | 0 <= i < |w| :: SlotOk(w[i])) && b != 0
    ensures Total(Unload(w, isPrimary), b)
      == Total(w, b) - (if Spills(w, isPrimary) then Qty(w[Mag(isPrimary)], b) else 0)
  {
    var mag := Mag(isPrimary);
    if !w[mag].IsEmpty() {
      var k, e := FirstStack(w, w[mag].blueprint, 0), FirstEmpty(w, 0);
      if k != -1 {
        PourConserves(w, mag, k, w[mag].quantity, b);
      } else if e != -1 {
        TotalPut(w, e, w[mag], b);
        TotalPut(w[e := w[mag]], mag, EMPTY, b);
      } else {
        TotalPut(w, mag, EMPTY, b);
      }
    }
  }

  /** The slot told is the one that takes the rounds, all of them, and no other inventory slot changes; none is
      told exactly when there was nothing to unload or it was thrown away. */
  lemma UnloadSlotIs(w: World, isPrimary: bool)
    requires |w| >= BOX && forall i | 0 <= i < |w| :: SlotOk(w[i])
    ensures var k, mag := UnloadSlot(w, isPrimary), w[Mag(isPrimary)]; var w' := Unload(w, isPrimary);
      && (k == -1 <==> mag.IsEmpty() || Spills(w, isPrimary))
      && (k != -1 ==>
        0 <= k < INVENTORY_SLOT_COUNT && w'[k] == Slot(mag.blueprint, Qty(w[k], mag.blueprint) + mag.quantity))
      && forall i | 0 <= i < INVENTORY_SLOT_COUNT && i != k :: w'[i] == w[i]
  {
    var mag := w[Mag(isPrimary)];
    if !mag.IsEmpty() {
      var k, e := FirstStack(w, mag.blueprint, 0), FirstEmpty(w, 0);
      if k != -1 {
        assert Unload(w, isPrimary) == Pour(w, Mag(isPrimary), k, mag.quantity);
      } else if e != -1 {
        assert Unload(w, isPrimary) == w[e := mag][Mag(isPrimary) := EMPTY];
      } else {
        assert Unload(w, isPrimary) == w[Mag(isPrimary) := EMPTY];
      }
    }
  }

  /** Equipping a weapon changes no inventory slot but the one it names and the one told. */
  lemma EquipChangesAreTold(w: World, src: nat, isPrimary: bool, i: nat)
    requires WorldOk(w) && src < |w| && i < INVENTORY_SLOT_COUNT && i != src
    ensures EquipWeapon(w, src, isPrimary)[i] != w[i] ==> i == UnloadSlot(w, isPrimary)
  {
    UnloadSlotIs(w, isPrimary);
  }

  /** So does unequipping one, the magazine being unloaded after the weapon has moved. */
  lemma UnequipChangesAreTold(w: World, dst: nat, isPrimary: bool, i: nat)
    requires WorldOk(w) && dst < |w| && i < INVENTORY_SLOT_COUNT && i != dst
    ensures UnequipWeapon(w, dst, isPrimary)[i] != w[i] ==> i == UnloadSlot(Swap(w, dst, Gun(isPrimary)), isPrimary)
  {
    var q := Swap(w, dst, Gun(isPrimary));
    assert forall j | 0 <= j < |q| :: SlotOk(q[j]);
    UnloadSlotIs(q, isPrimary);
  }
}
