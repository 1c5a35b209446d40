/** The two entities: an inventory item (a value with validation) and a
    location (an object whose inventory dictionary is updated in place). */
module Models {
  import opened Text
  import opened Errors

  // ---------------------------------------------------------------------------
  // Identifiers
  // ---------------------------------------------------------------------------

  predicate IsAlnumChar(c: char) {
    'a' <= c <= 'z' || 'A' <= c <= 'Z' || '0' <= c <= '9'
  }

  /** `s.isalnum()` on ASCII: non-empty, every character a letter or a digit. */
  predicate IsAlnum(s: string) {
    s != [] && forall i | 0 <= i < |s| :: IsAlnumChar(s[i])
  }

  /** `s.replace('_', '')` */
  function WithoutUnderscores(s: string): (r: string)
    ensures forall c :: c in r <==> c in s && c != '_'
  {
    if s == [] then []
    else (if s[0] == '_' then [] else [s[0]]) + WithoutUnderscores(s[1..])
  }

  /** The identifier rule shared by items, locations and the command parser:
      non-empty and alphanumeric once underscores are removed. */
  predicate IsIdentifier(s: string) {
    s != [] && IsAlnum(WithoutUnderscores(s))
  }

  /** An identifier is made of letters, digits and underscores, and is not
      all underscores. */
  lemma IdentifierCharacters(s: string)
    ensures IsIdentifier(s) <==>
      && (forall i | 0 <= i < |s| :: IsAlnumChar(s[i]) || s[i] == '_')
      && (exists i | 0 <= i < |s| :: s[i] != '_')
  {
    var r := WithoutUnderscores(s);
    if IsIdentifier(s) {
      forall i | 0 <= i < |s| ensures IsAlnumChar(s[i]) || s[i] == '_' {
        if s[i] != '_' {
          assert s[i] in r;
          var j :| 0 <= j < |r| && r[j] == s[i];
        }
      }
      assert r[0] in s;
    }
    if (forall i | 0 <= i < |s| :: IsAlnumChar(s[i]) || s[i] == '_') && (exists i | 0 <= i < |s| :: s[i] != '_') {
      var i :| 0 <= i < |s| && s[i] != '_';
      assert s[i] in r;
      forall j | 0 <= j < |r| ensures IsAlnumChar(r[j]) {
        assert r[j] in s;
      }
    }
  }

  /** Identifiers never contain whitespace, so they survive `str.split()`. */
  lemma IdentifierHasNoSpace(s: string)
    requires IsIdentifier(s)
    ensures NoSpace(s)
  {
    IdentifierCharacters(s);
  }

  // ---------------------------------------------------------------------------
  // InventoryItem
  // ---------------------------------------------------------------------------

  datatype InventoryItem = InventoryItem(itemId: string, quantity: int)

  predicate ValidItem(item: InventoryItem) {
    IsIdentifier(item.itemId) && item.quantity > 0
  }

  /** A dynamically typed value as found in a deserialized dictionary. */
  datatype Field = Str(s: string) | Int(i: int) | OtherValue

  /** `InventoryItem(item_id, quantity)` with its `__post_init__` checks, in order. */
  function CheckItem(itemId: Field, quantity: Field): (r: Result<InventoryItem>)
    ensures r.Ok? <==> itemId.Str? && IsIdentifier(itemId.s) && quantity.Int? && quantity.i > 0
    ensures r.Ok? ==> ValidItem(r.value) && r.value == InventoryItem(itemId.s, quantity.i)
    ensures r.Err? ==> r.error.ValueError?
  {
    if !itemId.Str? || itemId.s == [] then Err(ValueError("item_id must be a non-empty string"))
    else if !IsAlnum(WithoutUnderscores(itemId.s)) then Err(ValueError("item_id must be alphanumeric"))
    else if !quantity.Int? || quantity.i <= 0 then Err(ValueError("quantity must be a positive integer"))
    else Ok(InventoryItem(itemId.s, quantity.i))
  }

  /** `InventoryItem.to_dict` */
  function ToDict(item: InventoryItem): (d: map<string, Field>)
    ensures d.Keys == {"item_id", "quantity"}
  {
    map["item_id" := Str(item.itemId), "quantity" := Int(item.quantity)]
  }

  /** `InventoryItem.from_dict`: both keys are looked up (item_id first), then
      the item is constructed and validated. */
  function FromDict(d: map<string, Field>): (r: Result<InventoryItem>)
    ensures "item_id" !in d ==> r == Err(KeyError("item_id"))
    ensures "item_id" in d && "quantity" !in d ==> r == Err(KeyError("quantity"))
    ensures r.Ok? <==> "item_id" in d && "quantity" in d && CheckItem(d["item_id"], d["quantity"]).Ok?
    ensures r.Ok? ==>
      && ValidItem(r.value)
      && d["item_id"] == Str(r.value.itemId) && d["quantity"] == Int(r.value.quantity)
  {
    if "item_id" !in d then Err(KeyError("item_id"))
    else if "quantity" !in d then Err(KeyError("quantity"))
    else CheckItem(d["item_id"], d["quantity"])
  }

  /** Serializing a valid item and reading it back reproduces it. */
  lemma FromDictToDict(item: InventoryItem)
    requires ValidItem(item)
    ensures FromDict(ToDict(item)) == Ok(item)
  {
  }

  /** Whatever `from_dict` accepts serializes back to the same two fields. */
  lemma ToDictFromDict(d: map<string, Field>)
    requires FromDict(d).Ok?
    ensures ToDict(FromDict(d).value) == map k | k in d && k in {"item_id", "quantity"} :: d[k]
  {
  }

  // ---------------------------------------------------------------------------
  // Inventory of one location: item id -> item
  // ---------------------------------------------------------------------------

  type Inventory = map<string, InventoryItem>

  /** Every stored item sits under its own id and is valid (quantity > 0). */
  predicate ValidInventory(inv: Inventory) {
    forall id | id in inv :: inv[id].itemId == id && ValidItem(inv[id])
  }

  /** `Location.has_inventory` */
  function HasInventory(inv: Inventory): (r: bool)
    ensures r <==> inv != map[]
  {
    |inv| > 0
  }

  /** `Location.get_item_quantity` */
  function ItemQuantity(inv: Inventory, itemId: string): (q: int)
    ensures ValidInventory(inv) ==> q >= 0
    ensures ValidInventory(inv) ==> (q > 0 <==> itemId in inv)
  {
    if itemId in inv then inv[itemId].quantity else 0
  }

  /** `Location.add_item` on the inventory value: the item is created with
      `quantity` (validated as a new InventoryItem) or its quantity grows. */
  function AddedTo(inv: Inventory, itemId: string, quantity: int): (r: Result<Inventory>)
    requires quantity > 0
    ensures r.Ok? <==> itemId in inv || IsIdentifier(itemId)
    ensures r.Ok? ==> ItemQuantity(r.value, itemId) == ItemQuantity(inv, itemId) + quantity
    ensures r.Ok? ==> itemId in r.value && r.value - {itemId} == inv - {itemId}
    ensures r.Ok? && ValidInventory(inv) ==> ValidInventory(r.value)
    ensures r.Err? ==> r.error.ValueError?
  {
    if itemId in inv then
      Ok(inv[itemId := inv[itemId].(quantity := inv[itemId].quantity + quantity)])
    else
      match CheckItem(Str(itemId), Int(quantity))
      case Ok(item) => Ok(inv[itemId := item])
      case Err(e) => Err(e)
  }

  /** `Location.remove_item` on the inventory value: the quantity drops by
      `quantity`, and an item that reaches zero is deleted. */
  function RemovedFrom(inv: Inventory, itemId: string, quantity: int): (r: Inventory)
    requires itemId in inv && 0 < quantity <= inv[itemId].quantity
    ensures ItemQuantity(r, itemId) == ItemQuantity(inv, itemId) - quantity
    ensures itemId in r <==> quantity < inv[itemId].quantity
    ensures r - {itemId} == inv - {itemId}
    ensures ValidInventory(inv) ==> ValidInventory(r)
  {
    var left := inv[itemId].quantity - quantity;
    if left == 0 then inv - {itemId}
    else inv[itemId := inv[itemId].(quantity := left)]
  }

  /** Two inventories that agree on every item but one and on that item's
      quantity are the same inventory. */
  lemma {:induction false} InventoryExtensional(a: Inventory, b: Inventory, itemId: string)
    requires ValidInventory(a) && ValidInventory(b)
    requires a - {itemId} == b - {itemId}
    requires ItemQuantity(a, itemId) == ItemQuantity(b, itemId)
    ensures a == b
  {
    forall k | k in a ensures k in b && a[k] == b[k] {
      if k != itemId {
        assert k in a - {itemId};
      }
    }
    forall k | k in b ensures k in a {
      if k != itemId {
        assert k in b - {itemId};
      }
    }
  }

  /** Removing what was just added restores the inventory. */
  lemma RemoveUndoesAdd(inv: Inventory, itemId: string, quantity: int)
    requires ValidInventory(inv) && quantity > 0 && AddedTo(inv, itemId, quantity).Ok?
    ensures var added := AddedTo(inv, itemId, quantity).value;
      itemId in added && quantity <= added[itemId].quantity
      && RemovedFrom(added, itemId, quantity) == inv
  {
    var added := AddedTo(inv, itemId, quantity).value;
    var back := RemovedFrom(added, itemId, quantity);
    assert back - {itemId} == inv - {itemId};
    InventoryExtensional(back, inv, itemId);
  }

  /** Adding back what was just removed restores the inventory. */
  lemma AddUndoesRemove(inv: Inventory, itemId: string, quantity: int)
    requires ValidInventory(inv) && itemId in inv && 0 < quantity <= inv[itemId].quantity
    ensures AddedTo(RemovedFrom(inv, itemId, quantity), itemId, quantity) == Ok(inv)
  {
    var removed := RemovedFrom(inv, itemId, quantity);
    var back := AddedTo(removed, itemId, quantity);
    assert back.Ok?;
    assert back.value - {itemId} == inv - {itemId};
    InventoryExtensional(back.value, inv, itemId);
  }

  /** The items stored under `ids`, in that order (a helper for SortedItems). */
  function ItemsAt(inv: Inventory, ids: seq<string>): (r: seq<InventoryItem>)
    requires forall i | 0 <= i < |ids| :: ids[i] in inv
  {
    seq(|ids|, i requires 0 <= i < |ids| => inv[ids[i]])
  }

  /** `Location.get_sorted_items`: every stored item once, in strictly
      ascending `item_id`. */
  function SortedItems(inv: Inventory): (r: seq<InventoryItem>)
    requires ValidInventory(inv)
    ensures |r| == |inv|
    ensures forall i | 0 <= i < |r| :: r[i].itemId in inv && inv[r[i].itemId] == r[i]
    ensures forall id | id in inv :: inv[id] in r
    ensures forall i, j | 0 <= i < j < |r| :: LexLess(r[i].itemId, r[j].itemId)
  {
    var ids := SortedKeys(inv.Keys);
    var r := ItemsAt(inv, ids);
    ListedByIds(inv, ids, r);
    r
  }

  /** Listing the items of a valid inventory under its keys in strictly
      ascending order lists each item once, in ascending id. */
  lemma ListedByIds(inv: Inventory, ids: seq<string>, r: seq<InventoryItem>)
    requires ValidInventory(inv)
    requires |ids| == |inv.Keys|
    requires forall i | 0 <= i < |ids| :: ids[i] in inv.Keys
    requires forall k | k in inv.Keys :: k in ids
    requires forall i, j | 0 <= i < j < |ids| :: LexLess(ids[i], ids[j])
    requires |r| == |ids| && forall i | 0 <= i < |ids| :: r[i] == inv[ids[i]]
    ensures |r| == |inv|
    ensures forall i | 0 <= i < |r| :: r[i].itemId in inv && inv[r[i].itemId] == r[i]
    ensures forall id | id in inv :: inv[id] in r
    ensures forall i, j | 0 <= i < j < |r| :: LexLess(r[i].itemId, r[j].itemId)
  {
    assert |inv.Keys| == |inv|;
    forall i | 0 <= i < |r| ensures r[i].itemId == ids[i] {
      assert ids[i] in inv;
    }
    forall id | id in inv ensures inv[id] in r {
      var i :| 0 <= i < |ids| && ids[i] == id;
      assert r[i] == inv[id];
    }
  }

  // ---------------------------------------------------------------------------
  // Location
  // ---------------------------------------------------------------------------

  /** `Location.__post_init__`: the checks a location id must pass, in order. */
  function CheckLocationId(locationId: string): (r: Outcome)
    ensures r.Done? <==> IsIdentifier(locationId)
    ensures r.Failed? ==> r.error.ValueError?
  {
    if locationId == [] then Failed(ValueError("location_id must be a non-empty string"))
    else if !IsAlnum(WithoutUnderscores(locationId)) then Failed(ValueError("location_id must be alphanumeric"))
    else Done
  }

  class Location {
    const locationId: string
    var inventory: Inventory

    ghost predicate Valid()
      reads this
    {
      IsIdentifier(locationId) && ValidInventory(inventory)
    }

    /** `Location(location_id=...)` once its id has passed CheckLocationId:
        a new location has an empty inventory. */
    constructor (locationId: string)
      requires CheckLocationId(locationId).Done?
      ensures Valid()
      ensures this.locationId == locationId && inventory == map[]
    {
      this.locationId := locationId;
      inventory := map[];
    }

    /** `add_item`: creates the item or adds to it; a new item with an
        invalid id is refused and nothing changes. */
    method AddItem(itemId: string, quantity: int) returns (r: Outcome)
      requires Valid() && quantity > 0
      modifies this
      ensures Valid()
      ensures r.Done? <==> AddedTo(old(inventory), itemId, quantity).Ok?
      ensures r.Done? ==> inventory == AddedTo(old(inventory), itemId, quantity).value
      ensures r.Failed? ==>
        inventory == old(inventory) && r.error == AddedTo(old(inventory), itemId, quantity).error
    {
      var added := AddedTo(inventory, itemId, quantity);
      if added.Err? {
        return Failed(added.error);
      }
      inventory := added.value;
      r := Done;
    }

    /** `remove_item`: subtracts, deleting the item when it reaches zero. */
    method RemoveItem(itemId: string, quantity: int)
      requires Valid() && itemId in inventory && 0 < quantity <= inventory[itemId].quantity
      modifies this
      ensures Valid()
      ensures inventory == RemovedFrom(old(inventory), itemId, quantity)
    {
      inventory := RemovedFrom(inventory, itemId, quantity);
    }
  }
}
