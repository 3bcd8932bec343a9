/** The lobby's money and inventory: snapshots sent by the client, checked against the database by totals
    only, and the purchases, sales and rearrangements that rewrite a player's rows with them. */
module LobbyEconomy {
  import opened Sets

  const WAREHOUSE_SLOT_MIN := 0
  const WAREHOUSE_SLOT_MAX := 79
  const INVENTORY_SLOT_MIN := 80
  const LOADOUT_SLOT_MIN := 105
  const LOADOUT_SLOT_MAX := 107
  const MAX_PURCHASE := 99

  datatype Row = Row(item: int, slot: int, quantity: int)

  datatype ItemKind = WEAPON | ARMOR | OTHER
  datatype ShopItem = ShopItem(isActive: bool, price: int, kind: ItemKind)

  datatype Code =
    | OK | BAD_REQUEST | DUPLICATE_SLOT | INVALID_SLOT | SLOT_OCCUPIED | ITEM_NOT_FOUND | ITEM_NOT_FOR_SALE
    | INVALID_QUANTITY | SNAPSHOT_MISMATCH | INSUFFICIENT_FUNDS | SLOT_EMPTY | ITEM_MISMATCH | INTERNAL
    | LOADOUT_NOT_EMPTY | NO_WEAPON_EQUIPPED

  // ---- Snapshots ----

  predicate EntryOk(e: Row) {
    e.item > 0 && WAREHOUSE_SLOT_MIN <= e.slot <= LOADOUT_SLOT_MAX && e.quantity >= 1
  }

  predicate UniqueSlots(rows: seq<Row>) { forall i, j | 0 <= i < j < |rows| :: rows[i].slot != rows[j].slot }

  predicate SnapshotOk(rows: seq<Row>) { UniqueSlots(rows) && forall e <- rows :: EntryOk(e) }

  /** The rows as a map from slot to row. */
  function BySlot(rows: seq<Row>): map<int, Row> {
    if rows == [] then map[] else BySlot(rows[..|rows| - 1])[rows[|rows| - 1].slot := rows[|rows| - 1]]
  }

  lemma {:induction false} BySlotHas(rows: seq<Row>, slot: int)
    requires UniqueSlots(rows)
    ensures slot in BySlot(rows) <==> exists e <- rows :: e.slot == slot
    ensures slot in BySlot(rows) ==> BySlot(rows)[slot] in rows && BySlot(rows)[slot].slot == slot
  {
    if rows != [] {
      var r, last := rows[..|rows| - 1], rows[|rows| - 1];
      BySlotHas(r, slot);
      assert rows == r + [last];
      assert last in rows;
      forall e | e in r ensures e in rows {}
    }
  }

  /** Accepts a snapshot exactly when every entry is well formed and no slot appears twice. */
  method ValidateSnapshot(inventory: seq<Row>) returns (code: Code, slots: map<int, Row>)
    ensures code == OK <==> SnapshotOk(inventory)
    ensures code in {OK, BAD_REQUEST, DUPLICATE_SLOT}
    ensures code == OK ==> slots == BySlot(inventory)
  {
    slots := map[];
    var n := 0;
    while n < |inventory|
      invariant 0 <= n <= |inventory| && slots == BySlot(inventory[..n]) && SnapshotOk(inventory[..n])
    {
      var entry := inventory[n];
      assert inventory[..n + 1][..n] == inventory[..n];
      BySlotHas(inventory[..n], entry.slot);
      if !EntryOk(entry) {
        assert entry in inventory;
        return BAD_REQUEST, slots;
      }
      if entry.slot in slots {
        var e :| e in inventory[..n] && e.slot == entry.slot;
        return DUPLICATE_SLOT, slots;
      }
      assert entry.slot !in slots;
      forall i | 0 <= i < n ensures inventory[i].slot != entry.slot { assert inventory[..n][i] in inventory[..n]; }
      slots := slots[entry.slot := entry];
      n := n + 1;
    }
    assert inventory[..n] == inventory;
    code := OK;
  }

  // ---- Totals ----

  function Sum(rows: seq<Row>, item: int): int {
    if rows == [] then 0
    else Sum(rows[..|rows| - 1], item) + (if rows[|rows| - 1].item == item then rows[|rows| - 1].quantity else 0)
  }

  function ItemsOf(rows: seq<Row>): set<int> { set e | e in rows :: e.item }

  /** One map of running totals. */
  method Totals(rows: seq<Row>) returns (totals: map<int, int>)
    ensures totals.Keys == ItemsOf(rows) && forall k <- totals :: totals[k] == Sum(rows, k)
  {
    totals := map[];
    var n := 0;
    while n < |rows|
      invariant 0 <= n <= |rows| && totals.Keys == ItemsOf(rows[..n])
      invariant forall k ::
        (k in totals ==> totals[k] == Sum(rows[..n], k)) && (k !in totals ==> Sum(rows[..n], k) == 0)
    {
      var row := rows[n];
      assert rows[..n + 1][..n] == rows[..n];
      assert rows[..n + 1] == rows[..n] + [row];
      ItemsOfMore(rows[..n], row);
      totals := totals[row.item := (if row.item in totals then totals[row.item] else 0) + row.quantity];
      n := n + 1;
    }
    assert rows[..n] == rows;
  }

  lemma ItemsOfMore(rows: seq<Row>, row: Row)
    ensures ItemsOf(rows + [row]) == ItemsOf(rows) + {row.item}
  {
    assert row in rows + [row];
    forall k ensures k in ItemsOf(rows + [row]) <==> k in ItemsOf(rows) || k == row.item {
      if k in ItemsOf(rows) {
        var e :| e in rows && e.item == k;
        assert e in rows + [row];
      }
    }
  }

  lemma {:induction false} SumPositive(rows: seq<Row>, item: int)
    requires forall e <- rows :: e.quantity >= 1
    ensures Sum(rows, item) >= 0 && (Sum(rows, item) > 0 <==> item in ItemsOf(rows))
  {
    if rows != [] {
      var r, last := rows[..|rows| - 1], rows[|rows| - 1];
      assert rows == r + [last];
      assert last in rows;
      SumPositive(r, item);
      ItemsOfMore(r, last);
    }
  }

  /** The same items on both sides, each with the same total. */
  ghost predicate SameTotals(a: seq<Row>, b: seq<Row>) {
    ItemsOf(a) == ItemsOf(b) && forall k <- ItemsOf(a) :: Sum(a, k) == Sum(b, k)
  }

  /** Comparing the number of different items and then one side's totals suffices. */
  method TotalsMatch(dbRows: seq<Row>, inventory: seq<Row>) returns (same: bool)
    ensures same <==> SameTotals(dbRows, inventory)
  {
    var dbTotals := Totals(dbRows);
    var snapTotals := Totals(inventory);
    if |dbTotals| != |snapTotals| { return false; }
    var todo := dbTotals.Keys;
    while todo != {}
      invariant todo <= dbTotals.Keys
      invariant forall k <- dbTotals | k !in todo :: k in snapTotals && snapTotals[k] == dbTotals[k]
      decreases todo
    {
      SomeMember(todo);
      var k: int :| k in todo;
      if k !in snapTotals || snapTotals[k] != dbTotals[k] {
        assert k in ItemsOf(dbRows);
        return false;
      }
      todo := todo - {k};
    }
    SameSizeSubset(dbTotals.Keys, snapTotals.Keys);
    same := true;
  }

  ghost predicate EqualSums(a: seq<Row>, b: seq<Row>) { forall k :: Sum(a, k) == Sum(b, k) }

  lemma SameTotalsThen(a: seq<Row>, b: seq<Row>, k: int)
    requires (forall e <- a :: e.quantity >= 1) && (forall e <- b :: e.quantity >= 1) && SameTotals(a, b)
    ensures Sum(a, k) == Sum(b, k)
  {
    SumPositive(a, k);
    SumPositive(b, k);
  }

  lemma ThenSameTotals(a: seq<Row>, b: seq<Row>)
    requires (forall e <- a :: e.quantity >= 1) && (forall e <- b :: e.quantity >= 1)
    requires EqualSums(a, b)
    ensures SameTotals(a, b)
  {
    forall k ensures k in ItemsOf(a) <==> k in ItemsOf(b) {
      SumPositive(a, k);
      SumPositive(b, k);
      assert Sum(a, k) == Sum(b, k);
    }
    assert ItemsOf(a) == ItemsOf(b);
  }

  /** With quantities of at least one, which every snapshot and every stored row has, that is the equality of
      all totals. */
  lemma SameTotalsIff(a: seq<Row>, b: seq<Row>)
    requires (forall e <- a :: e.quantity >= 1) && (forall e <- b :: e.quantity >= 1)
    ensures SameTotals(a, b) <==> EqualSums(a, b)
  {
    if SameTotals(a, b) { forall k ensures Sum(a, k) == Sum(b, k) { SameTotalsThen(a, b, k); } }
    if EqualSums(a, b) { ThenSameTotals(a, b); }
  }

  lemma SameSizeSubset(a: set<int>, b: set<int>)
    requires a <= b && |a| == |b|
    ensures a == b
  {
    assert b == a + (b - a);
    assert |b - a| == 0;
  }

  // ---- What an account is worth ----

  type Prices = map<int, int>

  function PriceOf(prices: Prices, item: int): int { if item in prices then prices[item] else 0 }

  function Value(rows: seq<Row>, prices: Prices): int {
    if rows == [] then 0
    else Value(rows[..|rows| - 1], prices) + PriceOf(prices, rows[|rows| - 1].item) * rows[|rows| - 1].quantity
  }

  function WithoutItem(rows: seq<Row>, item: int): seq<Row> {
    if rows == [] then []
    else WithoutItem(rows[..|rows| - 1], item) + (if rows[|rows| - 1].item == item then [] else [rows[|rows| - 1]])
  }

  lemma SumLast(rows: seq<Row>, row: Row, k: int)
    ensures Sum(rows + [row], k) == Sum(rows, k) + (if row.item == k then row.quantity else 0)
  {
    assert (rows + [row])[..|rows + [row]| - 1] == rows;
  }

  lemma ValueLast(rows: seq<Row>, row: Row, prices: Prices)
    ensures Value(rows + [row], prices) == Value(rows, prices) + PriceOf(prices, row.item) * row.quantity
  {
    assert (rows + [row])[..|rows + [row]| - 1] == rows;
  }

  lemma {:induction false} WithoutItemSum(rows: seq<Row>, item: int, k: int)
    ensures Sum(WithoutItem(rows, item), k) == if k == item then 0 else Sum(rows, k)
    ensures |WithoutItem(rows, item)| <= |rows| - (if rows != [] && rows[|rows| - 1].item == item then 1 else 0)
  {
    if rows != [] {
      var r, last := rows[..|rows| - 1], rows[|rows| - 1];
      WithoutItemSum(r, item, k);
      if last.item == item {
        assert WithoutItem(rows, item) == WithoutItem(r, item);
      } else {
        SumLast(WithoutItem(r, item), last, k);
      }
    }
  }

  lemma Distribute(p: int, x: int, y: int)
    ensures p * (x + y) == p * x + p * y
  {}

  lemma {:induction false} WithoutItemValue(rows: seq<Row>, item: int, prices: Prices)
    ensures Value(rows, prices) == Value(WithoutItem(rows, item), prices) + PriceOf(prices, item) * Sum(rows, item)
  {
    if rows != [] {
      var r, last := rows[..|rows| - 1], rows[|rows| - 1];
      WithoutItemValue(r, item, prices);
      if last.item == item {
        assert WithoutItem(rows, item) == WithoutItem(r, item);
        Distribute(PriceOf(prices, item), Sum(r, item), last.quantity);
      } else {
        SumLast(WithoutItem(r, item), last, item);
        ValueLast(WithoutItem(r, item), last, prices);
      }
    }
  }

  /** Equal totals are worth the same, however the rows are cut and laid out. */
  lemma {:induction false} SameTotalsSameValue(a: seq<Row>, b: seq<Row>, prices: Prices)
    requires forall k :: Sum(a, k) == Sum(b, k)
    ensures Value(a, prices) == Value(b, prices)
    decreases |a| + |b|
  {
    if a != [] || b != [] {
      var item := if a != [] then a[|a| - 1].item else b[|b| - 1].item;
      forall k ensures Sum(WithoutItem(a, item), k) == Sum(WithoutItem(b, item), k) {
        WithoutItemSum(a, item, k);
        WithoutItemSum(b, item, k);
      }
      WithoutItemSum(a, item, item);
      WithoutItemSum(b, item, item);
      WithoutItemValue(a, item, prices);
      WithoutItemValue(b, item, prices);
      SameTotalsSameValue(WithoutItem(a, item), WithoutItem(b, item), prices);
    }
  }

  // ---- Transactions ----

  datatype Account = Account(money: int, rows: seq<Row>)

  function Worth(a: Account, prices: Prices): int { a.money + Value(a.rows, prices) }

  /** Rows as they are stored: valid slots, none shared, quantities of at least one; and money not negative. */
  ghost predicate AccountOk(a: Account) { SnapshotOk(a.rows) && a.money >= 0 }

  /** The snapshot is the account's own things, possibly laid out anew. */
  ghost predicate Relaid(a: Account, inventory: seq<Row>) { SnapshotOk(inventory) && SameTotals(a.rows, inventory) }

  function WithoutSlot(rows: seq<Row>, slot: int): seq<Row> {
    if rows == [] then []
    else WithoutSlot(rows[..|rows| - 1], slot) + (if rows[|rows| - 1].slot == slot then [] else [rows[|rows| - 1]])
  }

  lemma {:induction false} WithoutSlotHas(rows: seq<Row>, slot: int, e: Row)
    ensures e in WithoutSlot(rows, slot) <==> e in rows && e.slot != slot
  {
    if rows != [] {
      WithoutSlotHas(rows[..|rows| - 1], slot, e);
      assert rows == rows[..|rows| - 1] + [rows[|rows| - 1]];
    }
  }

  lemma {:induction false} WithoutSlotOk(rows: seq<Row>, slot: int)
    requires SnapshotOk(rows)
    ensures SnapshotOk(WithoutSlot(rows, slot))
  {
    if rows != [] {
      var r, last := rows[..|rows| - 1], rows[|rows| - 1];
      assert rows == r + [last];
      WithoutSlotOk(r, slot);
      if last.slot != slot {
        var w := WithoutSlot(r, slot);
        forall i | 0 <= i < |w| ensures w[i].slot != last.slot {
          WithoutSlotHas(r, slot, w[i]);
          var j :| 0 <= j < |r| && r[j] == w[i];
          assert rows[j] == w[i];
        }
      }
    }
  }

  lemma LaterSlotsDiffer(rows: seq<Row>, slot: int)
    requires rows != [] && UniqueSlots(rows) && rows[|rows| - 1].slot == slot
    ensures forall x <- rows[..|rows| - 1] :: x.slot != slot
  {
    var r := rows[..|rows| - 1];
    forall x | x in r ensures x.slot != slot {
      var j :| 0 <= j < |r| && r[j] == x;
      assert rows[j] == x;
    }
  }

  lemma {:induction false} NoSuchSlot(rows: seq<Row>, slot: int)
    requires forall r <- rows :: r.slot != slot
    ensures WithoutSlot(rows, slot) == rows
  {
    if rows != [] {
      assert rows == rows[..|rows| - 1] + [rows[|rows| - 1]];
      assert rows[|rows| - 1] in rows;
      NoSuchSlot(rows[..|rows| - 1], slot);
    }
  }

  /** Taking the row of a slot out takes exactly it out. */
  lemma {:induction false} WithoutSlotSum(rows: seq<Row>, e: Row, k: int)
    requires UniqueSlots(rows) && e in rows
    ensures Sum(WithoutSlot(rows, e.slot), k) == Sum(rows, k) - (if e.item == k then e.quantity else 0)
  {
    var r, last := rows[..|rows| - 1], rows[|rows| - 1];
    assert rows == r + [last];
    if last.slot == e.slot {
      LaterSlotsDiffer(rows, e.slot);
      NoSuchSlot(r, e.slot);
      assert e == last;
      assert WithoutSlot(rows, e.slot) == r;
    } else {
      WithoutSlotSum(r, e, k);
      SumLast(WithoutSlot(r, e.slot), last, k);
    }
  }

  lemma {:induction false} WithoutSlotValue(rows: seq<Row>, e: Row, prices: Prices)
    requires UniqueSlots(rows) && e in rows
    ensures Value(WithoutSlot(rows, e.slot), prices) == Value(rows, prices) - PriceOf(prices, e.item) * e.quantity
  {
    var r, last := rows[..|rows| - 1], rows[|rows| - 1];
    assert rows == r + [last];
    if last.slot == e.slot {
      LaterSlotsDiffer(rows, e.slot);
      NoSuchSlot(r, e.slot);
      assert e == last;
      assert WithoutSlot(rows, e.slot) == r;
    } else {
      WithoutSlotValue(r, e, prices);
      ValueLast(WithoutSlot(r, e.slot), last, prices);
    }
  }

  datatype Tx =
    | Purchase(inventory: seq<Row>, item: int, slot: int, quantity: int)
    | Sell(inventory: seq<Row>, item: int, slot: int, quantity: int)
    | Start(inventory: seq<Row>, custom: bool, weapons: set<int>)

  function Named(tx: Tx): Row
    requires tx.Purchase? || tx.Sell?
  {
    Row(tx.item, tx.slot, tx.quantity)
  }

  predicate IsBulky(kind: ItemKind) { kind == WEAPON || kind == ARMOR }

  /** Whether a slot of the snapshot between lo and hi is in use. */
  predicate Uses(rows: seq<Row>, lo: int, hi: int) { exists e <- rows :: lo <= e.slot <= hi }

  /** weapons holds the items that are weapons; a free loadout needs the carried slots empty, a custom one a weapon. */
  predicate LoadoutOk(tx: Tx)
    requires tx.Start?
  {
    if tx.custom then exists e <- tx.inventory ::
        (e.slot == LOADOUT_SLOT_MIN || e.slot == LOADOUT_SLOT_MIN + 1) && e.item in tx.weapons
    else !Uses(tx.inventory, INVENTORY_SLOT_MIN, LOADOUT_SLOT_MAX)
  }

  /** When a request goes through. */
  ghost predicate Accepted(a: Account, tx: Tx, shop: map<int, ShopItem>, prices: Prices) {
    && Relaid(a, tx.inventory)
    && match tx
      case Purchase(inventory, item, slot, quantity) =>
        && item > 0 && 1 <= quantity <= MAX_PURCHASE && WAREHOUSE_SLOT_MIN <= slot <= WAREHOUSE_SLOT_MAX
        && !Uses(inventory, slot, slot) && item in shop && shop[item].isActive
          && (IsBulky(shop[item].kind) ==> quantity == 1)
        && shop[item].price * quantity <= a.money
      case Sell(inventory, item, slot, quantity) =>
          Row(item, slot, quantity) in inventory && item in prices && prices[item] >= 0
      case Start(_, _, _) => LoadoutOk(tx)
  }

  function Applied(a: Account, tx: Tx, shop: map<int, ShopItem>, prices: Prices): Account
    requires tx.Purchase? ==> tx.item in shop
  {
    match tx
    case Purchase(inventory, item, slot, quantity) =>
        Account(a.money - shop[item].price * quantity, inventory + [Row(item, slot, quantity)])
    case Sell(inventory, item, slot, quantity) =>
        Account(a.money + quantity * PriceOf(prices, item), WithoutSlot(inventory, slot))
    case Start(inventory, _, _) => Account(a.money, inventory)
  }

  ghost function Next(a: Account, tx: Tx, shop: map<int, ShopItem>, prices: Prices): Account {
    if Accepted(a, tx, shop, prices) then Applied(a, tx, shop, prices) else a
  }

  /** The shop and the sale prices come from one table. */
  predicate OnePriceTable(shop: map<int, ShopItem>, prices: Prices) {
    forall item <- shop :: item in prices && shop[item].price == prices[item]
  }

  /** A request brings in what was bought and takes out what was sold, and nothing else moves between items. */
  function Change(tx: Tx, k: int): int {
    match tx
    case Purchase(_, item, _, quantity) => if k == item then quantity else 0
    case Sell(_, item, _, quantity) => if k == item then -quantity else 0
    case Start(_, _, _) => 0
  }

  lemma RelaidIs(a: Account, inventory: seq<Row>, prices: Prices)
    requires AccountOk(a) && Relaid(a, inventory)
    ensures Value(inventory, prices) == Value(a.rows, prices) && forall k :: Sum(inventory, k) == Sum(a.rows, k)
  {
    SameTotalsIff(a.rows, inventory);
    SameTotalsSameValue(a.rows, inventory, prices);
  }

  /** Every accepted request keeps the account in order and conserves its worth; item by item it changes the
      totals by exactly what it names. */
  lemma TxKeeps(a: Account, tx: Tx, shop: map<int, ShopItem>, prices: Prices, k: int)
    requires AccountOk(a) && Accepted(a, tx, shop, prices) && OnePriceTable(shop, prices)
    ensures var a' := Applied(a, tx, shop, prices);
      && AccountOk(a') && Worth(a', prices) == Worth(a, prices) && Sum(a'.rows, k) == Sum(a.rows, k) + Change(tx, k)
  {
    RelaidIs(a, tx.inventory, prices);
    match tx
    case Purchase(inventory, item, slot, quantity) =>
      BuyingAdds(inventory, Row(item, slot, quantity), k, prices);
    case Sell(inventory, item, slot, quantity) =>
      SellingRemoves(inventory, Row(item, slot, quantity), k, prices);
    case Start(_, _, _) =>
  }

  lemma BuyingAdds(inventory: seq<Row>, row: Row, k: int, prices: Prices)
    requires SnapshotOk(inventory) && EntryOk(row) && !Uses(inventory, row.slot, row.slot)
    ensures SnapshotOk(inventory + [row])
      && Value(inventory + [row], prices) == Value(inventory, prices) + PriceOf(prices, row.item) * row.quantity
    ensures Sum(inventory + [row], k) == Sum(inventory, k) + (if row.item == k then row.quantity else 0)
  {
    SumLast(inventory, row, k);
    ValueLast(inventory, row, prices);
    forall i | 0 <= i < |inventory| ensures inventory[i].slot != row.slot { assert inventory[i] in inventory; }
  }

  lemma SellingRemoves(inventory: seq<Row>, row: Row, k: int, prices: Prices)
    requires SnapshotOk(inventory) && row in inventory && PriceOf(prices, row.item) >= 0
    ensures SnapshotOk(WithoutSlot(inventory, row.slot)) && row.quantity * PriceOf(prices, row.item) >= 0
    ensures Value(WithoutSlot(inventory, row.slot), prices)
      == Value(inventory, prices) - row.quantity * PriceOf(prices, row.item)
    ensures Sum(WithoutSlot(inventory, row.slot), k) == Sum(inventory, k) - (if row.item == k then row.quantity else 0)
  {
    WithoutSlotOk(inventory, row.slot);
    WithoutSlotSum(inventory, row, k);
    WithoutSlotValue(inventory, row, prices);
    assert EntryOk(row);
    assert row.quantity * PriceOf(prices, row.item) == PriceOf(prices, row.item) * row.quantity;
  }

  ghost function After(a: Account, txs: seq<Tx>, shop: map<int, ShopItem>, prices: Prices): Account {
    if txs == [] then a else Next(After(a, txs[..|txs| - 1], shop, prices), txs[|txs| - 1], shop, prices)
  }

  /** Over any run of purchases, sales and rearrangements, refused or not: money plus what the items are worth
      is constant, money never goes negative, and the stored slots stay valid and distinct. */
  lemma {:induction false} WorthIsConstant(a: Account, txs: seq<Tx>, shop: map<int, ShopItem>, prices: Prices)
    requires AccountOk(a) && OnePriceTable(shop, prices)
    ensures AccountOk(After(a, txs, shop, prices)) && Worth(After(a, txs, shop, prices), prices) == Worth(a, prices)
  {
    if txs != [] {
      var b, tx := After(a, txs[..|txs| - 1], shop, prices), txs[|txs| - 1];
      WorthIsConstant(a, txs[..|txs| - 1], shop, prices);
      if Accepted(b, tx, shop, prices) { TxKeeps(b, tx, shop, prices, 0); }
    }
  }

  // ---- What each request does, row by row ----

  /** The snapshot has real items in real slots, no slot twice, and of every item as much as the account. */
  ghost predicate Matches(a: Account, inventory: seq<Row>) {
    && (forall e <- inventory :: e.item > 0 && 0 <= e.slot <= 107 && e.quantity >= 1)
    && (forall i, j | 0 <= i < j < |inventory| :: inventory[i].slot != inventory[j].slot)
    && forall item :: Sum(a.rows, item) == Sum(inventory, item)
  }

  lemma RelaidIff(a: Account, inventory: seq<Row>)
    requires AccountOk(a)
    ensures Relaid(a, inventory) <==> Matches(a, inventory)
  {
    if SnapshotOk(inventory) { SameTotalsIff(a.rows, inventory); }
  }

  /** A start goes through exactly if the snapshot matches, and carries nothing (a free loadout) or a weapon in hand
      (a custom one).  It then leaves the money and exactly the snapshot's rows at their slots. */
  lemma StartEffect(a: Account, inventory: seq<Row>, custom: bool, weapons: set<int>, shop: map<int, ShopItem>,
      prices: Prices)
    requires AccountOk(a)
    ensures var a' := Next(a, Start(inventory, custom, weapons), shop, prices);
      if Matches(a, inventory)
        && (if custom then exists e <- inventory :: e.slot in {105, 106} && e.item in weapons
            else forall e <- inventory :: e.slot < 80)
      then a'.money == a.money && |a'.rows| == |inventory| && forall r :: r in a'.rows <==> r in inventory
      else a' == a
  {
    RelaidIff(a, inventory);
    if Matches(a, inventory) {
      forall e | e in inventory ensures e.slot < 80 <==> !(80 <= e.slot <= 107) {}
    }
  }

  /** A purchase goes through exactly if the snapshot matches, its slot is a free one of the warehouse, the item is on
      sale, one to ninety-nine of it are asked for, or one of a weapon or armor, and the money suffices.  It then costs
      its price and adds its row to the snapshot's. */
  lemma PurchaseEffect(a: Account, inventory: seq<Row>, item: int, slot: int, quantity: int, shop: map<int, ShopItem>,
      prices: Prices)
    requires AccountOk(a)
    ensures var a' := Next(a, Purchase(inventory, item, slot, quantity), shop, prices);
      if Matches(a, inventory) && item > 0 && 1 <= quantity <= 99 && 0 <= slot <= 79
        && (forall e <- inventory :: e.slot != slot) && item in shop && shop[item].isActive
        && (shop[item].kind in {WEAPON, ARMOR} ==> quantity == 1) && a.money >= shop[item].price * quantity
      then a'.money == a.money - shop[item].price * quantity
        && forall r :: r in a'.rows <==> r in inventory || r == Row(item, slot, quantity)
      else a' == a
  {
    RelaidIff(a, inventory);
    assert Uses(inventory, slot, slot) <==> exists e <- inventory :: e.slot == slot;
  }

  /** A sale goes through exactly if the snapshot matches and holds that row, and a price is known.  It then brings in
      its price and takes out that row alone. */
  lemma SaleEffect(a: Account, inventory: seq<Row>, item: int, slot: int, quantity: int, shop: map<int, ShopItem>,
      prices: Prices)
    requires AccountOk(a)
    ensures var a' := Next(a, Sell(inventory, item, slot, quantity), shop, prices);
      if Matches(a, inventory) && Row(item, slot, quantity) in inventory && item in prices && prices[item] >= 0
      then a'.money == a.money + quantity * prices[item]
        && forall r :: r in a'.rows <==> r in inventory && r != Row(item, slot, quantity)
      else a' == a
  {
    RelaidIff(a, inventory);
    var sold := Row(item, slot, quantity);
    if Matches(a, inventory) && sold in inventory {
      forall r ensures r in WithoutSlot(inventory, slot) <==> r in inventory && r != sold {
        WithoutSlotHas(inventory, slot, r);
        OneRowPerSlot(inventory, slot);
      }
    }
  }

  // ---- The handlers ----

  class Wallet {
    var money: int
    var rows: seq<Row>

    ghost function View(): Account reads this { Account(money, rows) }

    method PurchaseItem(item: int, slot: int, quantity: int, inventory: seq<Row>, shop: map<int, ShopItem>)
        returns (code: Code)
      modifies this
      ensures code == OK <==> Accepted(old(View()), Purchase(inventory, item, slot, quantity), shop, map[])
      ensures code == OK ==> View() == Applied(old(View()), Purchase(inventory, item, slot, quantity), shop, map[])
      ensures code != OK ==> View() == old(View())
      ensures code == SLOT_OCCUPIED ==> exists e <- inventory :: e.slot == slot
      ensures code == ITEM_NOT_FOUND ==> item !in shop
      ensures code == ITEM_NOT_FOR_SALE ==> item in shop && !shop[item].isActive
      ensures code == INVALID_QUANTITY ==> quantity > 1 && item in shop && shop[item].kind in {WEAPON, ARMOR}
      ensures code == SNAPSHOT_MISMATCH ==> !SameTotals(old(rows), inventory)
      ensures code == INSUFFICIENT_FUNDS ==> item in shop && money < shop[item].price * quantity
    {
      if item <= 0 || quantity < 1 || quantity > MAX_PURCHASE { return BAD_REQUEST; }
      if slot < WAREHOUSE_SLOT_MIN || slot > WAREHOUSE_SLOT_MAX { return INVALID_SLOT; }
      var invalid, slots := ValidateSnapshot(inventory);
      if invalid != OK { return invalid; }
      BySlotHas(inventory, slot);
      if slot in slots { return SLOT_OCCUPIED; }
      if item !in shop { return ITEM_NOT_FOUND; }
      if !shop[item].isActive { return ITEM_NOT_FOR_SALE; }
      if IsBulky(shop[item].kind) && quantity != 1 { return INVALID_QUANTITY; }
      var totalCost := shop[item].price * quantity;
      var same := TotalsMatch(rows, inventory);
      if !same { return SNAPSHOT_MISMATCH; }
      if money < totalCost { return INSUFFICIENT_FUNDS; }
      rows := inventory + [Row(item, slot, quantity)];
      money := money - totalCost;
      code := OK;
    }

    /** cached is the price Redis keeps for the item, if it does. */
    method SellItem(item: int, slot: int, quantity: int, inventory: seq<Row>, cached: map<int, int>)
        returns (code: Code)
      modifies this
      ensures code == OK <==> Accepted(old(View()), Sell(inventory, item, slot, quantity), map[], cached)
      ensures code == OK ==> View() == Applied(old(View()), Sell(inventory, item, slot, quantity), map[], cached)
      ensures code != OK ==> View() == old(View())
      ensures code == SLOT_EMPTY ==> forall e <- inventory :: e.slot != slot
      ensures code == ITEM_MISMATCH ==>
        Row(item, slot, quantity) !in inventory && exists e <- inventory :: e.slot == slot
      ensures code == SNAPSHOT_MISMATCH ==> !SameTotals(old(rows), inventory)
      ensures code == INTERNAL ==> item !in cached || cached[item] < 0
    {
      if item <= 0 || quantity < 1 {
        if Row(item, slot, quantity) in inventory { assert !EntryOk(Row(item, slot, quantity)); }
        return BAD_REQUEST;
      }
      var invalid, slots := ValidateSnapshot(inventory);
      if invalid != OK { return invalid; }
      BySlotHas(inventory, slot);
      OneRowPerSlot(inventory, slot);
      if slot !in slots { return SLOT_EMPTY; }
      if slots[slot].item != item || slots[slot].quantity != quantity { return ITEM_MISMATCH; }
      var same := TotalsMatch(rows, inventory);
      if !same { return SNAPSHOT_MISMATCH; }
      if item !in cached || cached[item] < 0 { return INTERNAL; }
      rows := WithoutSlot(inventory, slot);
      money := money + quantity * cached[item];
      code := OK;
    }

    /** The rows are rewritten before the loadout is checked, and rolled back when it is refused. */
    method StartMatch(inventory: seq<Row>, custom: bool, weapons: set<int>) returns (code: Code)
      modifies this
      ensures code == OK <==> Accepted(old(View()), Start(inventory, custom, weapons), map[], map[])
      ensures code == OK ==> View() == Applied(old(View()), Start(inventory, custom, weapons), map[], map[])
      ensures code != OK ==> View() == old(View())
      ensures code == LOADOUT_NOT_EMPTY ==> !custom && exists e <- inventory :: e.slot >= 80
      ensures code == SNAPSHOT_MISMATCH ==> !SameTotals(old(rows), inventory)
      ensures code == NO_WEAPON_EQUIPPED ==>
        custom && forall e <- inventory :: e.slot in {105, 106} ==> e.item !in weapons
    {
      var invalid, slots := ValidateSnapshot(inventory);
      if invalid != OK { return invalid; }
      if !custom && Uses(inventory, INVENTORY_SLOT_MIN, LOADOUT_SLOT_MAX) { return LOADOUT_NOT_EMPTY; }
      var same := TotalsMatch(rows, inventory);
      if !same { return SNAPSHOT_MISMATCH; }
      var before := rows;
      rows := inventory;
      if custom && !LoadoutOk(Start(inventory, custom, weapons)) {
        rows := before;
        return NO_WEAPON_EQUIPPED;
      }
      code := OK;
    }
  }

  lemma OneRowPerSlot(rows: seq<Row>, slot: int)
    requires UniqueSlots(rows)
    ensures forall e <- rows | e.slot == slot :: slot in BySlot(rows) && BySlot(rows)[slot] == e
  {
    BySlotHas(rows, slot);
    forall e | e in rows && e.slot == slot ensures slot in BySlot(rows) && BySlot(rows)[slot] == e {
      var i :| 0 <= i < |rows| && rows[i] == e;
      var j :| 0 <= j < |rows| && rows[j] == BySlot(rows)[slot];
    }
  }
}
