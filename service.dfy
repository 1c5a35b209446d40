/** The warehouse state machine: a map from location id to Location, five
    mutating operations that check every precondition before changing
    anything and persist one snapshot after each success, and a read-only
    sorted query.

    The first half states each operation as a function on snapshot values
    (location id -> inventory) and proves what the operations promise; the
    class at the end updates Location objects in place and is proved to
    follow those functions. */
module Service {
  import opened Text
  import opened Errors
  import opened Models

  /** The abstract warehouse state: location id -> that location's inventory. */
  type Snapshot = map<string, Inventory>

  /** Every location id is an identifier and every stored quantity is > 0. */
  predicate ValidSnapshot(s: Snapshot) {
    forall l | l in s :: IsIdentifier(l) && ValidInventory(s[l])
  }

  /** What a mutating operation reports, and the state it leaves behind. */
  datatype Step = Step(outcome: Outcome, post: Snapshot)

  const QuantityNotPositive := ValueError("Quantity must be positive")

  // ---------------------------------------------------------------------------
  // The operations on snapshot values
  // ---------------------------------------------------------------------------

  /** `register_location` */
  function Register(s: Snapshot, locationId: string): (r: Step)
    ensures locationId in s ==> r.outcome == Failed(LocationAlreadyExists(locationId))
    ensures r.outcome.Done? <==> locationId !in s && IsIdentifier(locationId)
    ensures r.outcome.Done? ==>
      && r.post.Keys == s.Keys + {locationId}
      && r.post[locationId] == map[]
      && r.post - {locationId} == s
    ensures r.outcome.Failed? ==> r.post == s
    ensures ValidSnapshot(s) ==> ValidSnapshot(r.post)
  {
    if locationId in s then Step(Failed(LocationAlreadyExists(locationId)), s)
    else
      match CheckLocationId(locationId)
      case Failed(e) => Step(Failed(e), s)
      case Done => Step(Done, s[locationId := map[]])
  }

  /** `unregister_location` */
  function Unregister(s: Snapshot, locationId: string): (r: Step)
    ensures locationId !in s ==> r.outcome == Failed(LocationNotFound(locationId))
    ensures locationId in s && s[locationId] != map[] ==>
      r.outcome == Failed(LocationHasInventory(locationId))
    ensures r.outcome.Done? <==> locationId in s && s[locationId] == map[]
    ensures r.outcome.Done? ==> r.post.Keys == s.Keys - {locationId} && r.post == s - {locationId}
    ensures r.outcome.Failed? ==> r.post == s
    ensures ValidSnapshot(s) ==> ValidSnapshot(r.post)
  {
    if locationId !in s then Step(Failed(LocationNotFound(locationId)), s)
    else if HasInventory(s[locationId]) then Step(Failed(LocationHasInventory(locationId)), s)
    else Step(Done, s - {locationId})
  }

  /** `increment_inventory` */
  function Increment(s: Snapshot, locationId: string, itemId: string, quantity: int): (r: Step)
    ensures locationId !in s ==> r.outcome == Failed(LocationNotFound(locationId))
    ensures locationId in s && quantity <= 0 ==> r.outcome == Failed(QuantityNotPositive)
    ensures r.outcome.Done? <==>
      locationId in s && quantity > 0 && (itemId in s[locationId] || IsIdentifier(itemId))
    ensures r.outcome.Done? ==>
      && locationId in r.post
      && ItemQuantity(r.post[locationId], itemId) == ItemQuantity(s[locationId], itemId) + quantity
      && r.post[locationId] - {itemId} == s[locationId] - {itemId}
      && r.post.Keys == s.Keys
      && r.post - {locationId} == s - {locationId}
    ensures r.outcome.Failed? ==> r.post == s
    ensures ValidSnapshot(s) ==> ValidSnapshot(r.post)
  {
    if locationId !in s then Step(Failed(LocationNotFound(locationId)), s)
    else if quantity <= 0 then Step(Failed(QuantityNotPositive), s)
    else
      match AddedTo(s[locationId], itemId, quantity)
      case Err(e) => Step(Failed(e), s)
      case Ok(inv) => Step(Done, s[locationId := inv])
  }

  /** `decrement_inventory` */
  function Decrement(s: Snapshot, locationId: string, itemId: string, quantity: int): (r: Step)
    ensures locationId !in s ==> r.outcome == Failed(LocationNotFound(locationId))
    ensures locationId in s && quantity <= 0 ==> r.outcome == Failed(QuantityNotPositive)
    ensures locationId in s && quantity > 0 && itemId !in s[locationId] ==>
      r.outcome == Failed(ItemNotFound(itemId, locationId))
    ensures (locationId in s && itemId in s[locationId] && 0 < quantity
             && quantity > ItemQuantity(s[locationId], itemId)) ==>
      r.outcome == Failed(InsufficientQuantity(itemId, locationId, quantity, ItemQuantity(s[locationId], itemId)))
    ensures r.outcome.Done? <==>
      locationId in s && itemId in s[locationId] && 0 < quantity <= ItemQuantity(s[locationId], itemId)
    ensures r.outcome.Done? ==>
      && locationId in r.post
      && ItemQuantity(r.post[locationId], itemId) == ItemQuantity(s[locationId], itemId) - quantity
      && (itemId in r.post[locationId] <==> quantity < ItemQuantity(s[locationId], itemId))
      && r.post[locationId] - {itemId} == s[locationId] - {itemId}
      && r.post.Keys == s.Keys
      && r.post - {locationId} == s - {locationId}
    ensures r.outcome.Failed? ==> r.post == s
    ensures ValidSnapshot(s) ==> ValidSnapshot(r.post)
  {
    if locationId !in s then Step(Failed(LocationNotFound(locationId)), s)
    else if quantity <= 0 then Step(Failed(QuantityNotPositive), s)
    else if itemId !in s[locationId] then Step(Failed(ItemNotFound(itemId, locationId)), s)
    else
      var available := ItemQuantity(s[locationId], itemId);
      if quantity > available then
        Step(Failed(InsufficientQuantity(itemId, locationId, quantity, available)), s)
      else
        Step(Done, s[locationId := RemovedFrom(s[locationId], itemId, quantity)])
  }

  /** `transfer_inventory`: remove from the source, then add to the
      destination (the same location when both ids are equal). */
  function Transfer(s: Snapshot, src: string, dst: string, itemId: string, quantity: int): (r: Step)
    ensures src !in s ==> r.outcome == Failed(LocationNotFound(src))
    ensures src in s && dst !in s ==> r.outcome == Failed(LocationNotFound(dst))
    ensures src in s && dst in s && quantity <= 0 ==> r.outcome == Failed(QuantityNotPositive)
    ensures src in s && dst in s && quantity > 0 && itemId !in s[src] ==>
      r.outcome == Failed(ItemNotFound(itemId, src))
    ensures (src in s && dst in s && itemId in s[src] && 0 < quantity
             && quantity > ItemQuantity(s[src], itemId)) ==>
      r.outcome == Failed(InsufficientQuantity(itemId, src, quantity, ItemQuantity(s[src], itemId)))
    ensures ValidSnapshot(s) ==>
      (r.outcome.Done? <==>
        src in s && dst in s && itemId in s[src] && 0 < quantity <= ItemQuantity(s[src], itemId))
    ensures ValidSnapshot(s) && r.outcome.Failed? ==> r.post == s
    ensures ValidSnapshot(s) ==> ValidSnapshot(r.post)
  {
    if src !in s then Step(Failed(LocationNotFound(src)), s)
    else if dst !in s then Step(Failed(LocationNotFound(dst)), s)
    else if quantity <= 0 then Step(Failed(QuantityNotPositive), s)
    else if itemId !in s[src] then Step(Failed(ItemNotFound(itemId, src)), s)
    else
      var available := ItemQuantity(s[src], itemId);
      if quantity > available then
        Step(Failed(InsufficientQuantity(itemId, src, quantity, available)), s)
      else
        var removed := s[src := RemovedFrom(s[src], itemId, quantity)];
        match AddedTo(removed[dst], itemId, quantity)
        case Err(e) => Step(Failed(e), removed)
        case Ok(inv) => Step(Done, removed[dst := inv])
  }

  /** `observe_inventory`: the location's items in ascending item id. */
  function Observe(s: Snapshot, locationId: string): (r: Result<seq<InventoryItem>>)
    requires ValidSnapshot(s)
    ensures locationId !in s <==> r == Err(LocationNotFound(locationId))
    ensures r.Ok? <==> locationId in s
    ensures r.Ok? ==>
      && |r.value| == |s[locationId]|
      && (forall i, j | 0 <= i < j < |r.value| :: LexLess(r.value[i].itemId, r.value[j].itemId))
      && (forall i | 0 <= i < |r.value| ::
            ItemQuantity(s[locationId], r.value[i].itemId) == r.value[i].quantity > 0)
      && (forall id | id in s[locationId] :: InventoryItem(id, ItemQuantity(s[locationId], id)) in r.value)
  {
    if locationId !in s then Err(LocationNotFound(locationId))
    else
      SortedItemsReport(s[locationId]);
      Ok(SortedItems(s[locationId]))
  }

  /** Each listed item carries the quantity the location reports for it, and
      every item the location holds is listed with that quantity. */
  lemma SortedItemsReport(inv: Inventory)
    requires ValidInventory(inv)
    ensures var r := SortedItems(inv);
      && (forall i | 0 <= i < |r| :: ItemQuantity(inv, r[i].itemId) == r[i].quantity > 0)
      && (forall id | id in inv :: InventoryItem(id, ItemQuantity(inv, id)) in r)
  {
    var r := SortedItems(inv);
    forall i | 0 <= i < |r| ensures ItemQuantity(inv, r[i].itemId) == r[i].quantity > 0 {
      assert r[i].itemId in inv && inv[r[i].itemId] == r[i];
    }
    forall id | id in inv ensures InventoryItem(id, ItemQuantity(inv, id)) in r {
      assert inv[id] == InventoryItem(id, ItemQuantity(inv, id));
    }
  }

  // ---------------------------------------------------------------------------
  // Transfer in detail
  // ---------------------------------------------------------------------------

  /** A successful transfer between two locations moves `quantity` units of
      the item from one to the other and touches nothing else. */
  lemma TransferMoves(s: Snapshot, src: string, dst: string, itemId: string, quantity: int)
    requires ValidSnapshot(s) && src != dst
    requires Transfer(s, src, dst, itemId, quantity).outcome.Done?
    ensures var post := Transfer(s, src, dst, itemId, quantity).post;
      && post.Keys == s.Keys
      && ItemQuantity(post[src], itemId) == ItemQuantity(s[src], itemId) - quantity
      && ItemQuantity(post[dst], itemId) == ItemQuantity(s[dst], itemId) + quantity
      && (itemId in post[src] <==> quantity < ItemQuantity(s[src], itemId))
      && post[src] - {itemId} == s[src] - {itemId}
      && post[dst] - {itemId} == s[dst] - {itemId}
      && post - {src, dst} == s - {src, dst}
  {
  }

  /** Transferring within one location changes nothing. */
  lemma TransferToSelf(s: Snapshot, loc: string, itemId: string, quantity: int)
    requires ValidSnapshot(s)
    requires Transfer(s, loc, loc, itemId, quantity).outcome.Done?
    ensures Transfer(s, loc, loc, itemId, quantity).post == s
  {
    var inv := s[loc];
    AddUndoesRemove(inv, itemId, quantity);
    assert s[loc := inv] == s;
  }

  // ---------------------------------------------------------------------------
  // Totals across the whole warehouse
  // ---------------------------------------------------------------------------

  ghost function Pick(locs: set<string>): (l: string)
    requires locs != {}
    ensures l in locs
  {
    var l :| l in locs; l
  }

  /** The quantity of `itemId` summed over the locations in `locs`. */
  ghost function TotalOver(s: Snapshot, locs: set<string>, itemId: string): int
    requires locs <= s.Keys
    decreases locs
  {
    if locs == {} then 0
    else
      var l := Pick(locs);
      ItemQuantity(s[l], itemId) + TotalOver(s, locs - {l}, itemId)
  }

  /** The quantity of `itemId` across every location. */
  ghost function Total(s: Snapshot, itemId: string): int {
    TotalOver(s, s.Keys, itemId)
  }

  /** Any location can be taken out of the sum first. */
  lemma {:induction false} TotalOverSplit(s: Snapshot, locs: set<string>, itemId: string, l: string)
    requires locs <= s.Keys && l in locs
    ensures TotalOver(s, locs, itemId) == ItemQuantity(s[l], itemId) + TotalOver(s, locs - {l}, itemId)
    decreases locs
  {
    var p := Pick(locs);
    if p != l {
      TotalOverSplit(s, locs - {p}, itemId, l);
      TotalOverSplit(s, locs - {l}, itemId, p);
      assert locs - {p} - {l} == locs - {l} - {p};
    }
  }

  /** Sums over locations whose quantities agree are equal. */
  lemma {:induction false} TotalOverAgree(s: Snapshot, t: Snapshot, locs: set<string>, itemId: string)
    requires locs <= s.Keys && locs <= t.Keys
    requires forall l | l in locs :: ItemQuantity(s[l], itemId) == ItemQuantity(t[l], itemId)
    ensures TotalOver(s, locs, itemId) == TotalOver(t, locs, itemId)
    decreases locs
  {
    if locs != {} {
      var p := Pick(locs);
      TotalOverAgree(s, t, locs - {p}, itemId);
    }
  }

  /** Replacing one location's inventory changes the total by the difference
      of that location's quantities. */
  lemma TotalAfterUpdate(s: Snapshot, l: string, inv: Inventory, itemId: string)
    requires l in s
    ensures Total(s[l := inv], itemId) == Total(s, itemId) - ItemQuantity(s[l], itemId) + ItemQuantity(inv, itemId)
  {
    var t := s[l := inv];
    assert t.Keys == s.Keys;
    TotalOverSplit(s, s.Keys, itemId, l);
    TotalOverSplit(t, t.Keys, itemId, l);
    TotalOverAgree(s, t, s.Keys - {l}, itemId);
  }

  /** A successful increment raises the warehouse-wide total of the item by
      `quantity` and leaves every other item's total alone. */
  lemma IncrementTotals(s: Snapshot, locationId: string, itemId: string, quantity: int, other: string)
    requires Increment(s, locationId, itemId, quantity).outcome.Done? && other != itemId
    ensures var post := Increment(s, locationId, itemId, quantity).post;
      Total(post, itemId) == Total(s, itemId) + quantity && Total(post, other) == Total(s, other)
  {
    var inv := AddedTo(s[locationId], itemId, quantity).value;
    TotalAfterUpdate(s, locationId, inv, itemId);
    TotalAfterUpdate(s, locationId, inv, other);
    assert inv - {itemId} == s[locationId] - {itemId};
    assert ItemQuantity(inv, other) == ItemQuantity(s[locationId], other) by {
      assert other in inv <==> other in inv - {itemId};
      assert other in s[locationId] <==> other in s[locationId] - {itemId};
    }
  }

  /** A successful decrement lowers the warehouse-wide total of the item by
      `quantity` and leaves every other item's total alone. */
  lemma DecrementTotals(s: Snapshot, locationId: string, itemId: string, quantity: int, other: string)
    requires Decrement(s, locationId, itemId, quantity).outcome.Done? && other != itemId
    ensures var post := Decrement(s, locationId, itemId, quantity).post;
      Total(post, itemId) == Total(s, itemId) - quantity && Total(post, other) == Total(s, other)
  {
    var inv := RemovedFrom(s[locationId], itemId, quantity);
    TotalAfterUpdate(s, locationId, inv, itemId);
    TotalAfterUpdate(s, locationId, inv, other);
    assert ItemQuantity(inv, other) == ItemQuantity(s[locationId], other) by {
      assert other in inv <==> other in inv - {itemId};
      assert other in s[locationId] <==> other in s[locationId] - {itemId};
    }
  }

  /** Transfer conserves the warehouse-wide total of every item. */
  lemma TransferConserves(s: Snapshot, src: string, dst: string, itemId: string, quantity: int, any: string)
    requires ValidSnapshot(s)
    requires Transfer(s, src, dst, itemId, quantity).outcome.Done?
    ensures Total(Transfer(s, src, dst, itemId, quantity).post, any) == Total(s, any)
  {
    if src == dst {
      TransferToSelf(s, src, itemId, quantity);
    } else {
      var removed := RemovedFrom(s[src], itemId, quantity);
      var s1 := s[src := removed];
      var added := AddedTo(s1[dst], itemId, quantity).value;
      TotalAfterUpdate(s, src, removed, any);
      TotalAfterUpdate(s1, dst, added, any);
      if any != itemId {
        assert ItemQuantity(removed, any) == ItemQuantity(s[src], any) by {
          assert any in removed <==> any in removed - {itemId};
          assert any in s[src] <==> any in s[src] - {itemId};
        }
        assert ItemQuantity(added, any) == ItemQuantity(s[dst], any) by {
          assert any in added <==> any in added - {itemId};
          assert any in s[dst] <==> any in s[dst] - {itemId};
        }
      }
    }
  }

  // ---------------------------------------------------------------------------
  // Sequences of operations
  // ---------------------------------------------------------------------------

  function Sum(qs: seq<int>): int {
    if qs == [] then 0 else qs[0] + Sum(qs[1..])
  }

  /** The state after incrementing the same item by each of `qs` in turn. */
  function IncrementAll(s: Snapshot, locationId: string, itemId: string, qs: seq<int>): Snapshot {
    if qs == [] then s
    else IncrementAll(Increment(s, locationId, itemId, qs[0]).post, locationId, itemId, qs[1..])
  }

  /** Successive increments of one item add up. */
  lemma {:induction false} IncrementsAccumulate(s: Snapshot, locationId: string, itemId: string, qs: seq<int>)
    requires locationId in s && IsIdentifier(itemId)
    requires forall i | 0 <= i < |qs| :: qs[i] > 0
    ensures var t := IncrementAll(s, locationId, itemId, qs);
      locationId in t && ItemQuantity(t[locationId], itemId) == ItemQuantity(s[locationId], itemId) + Sum(qs)
  {
    if qs != [] {
      var next := Increment(s, locationId, itemId, qs[0]).post;
      IncrementsAccumulate(next, locationId, itemId, qs[1..]);
    }
  }

  /** Unregistering a location that was just registered restores the state. */
  lemma UnregisterUndoesRegister(s: Snapshot, locationId: string)
    requires Register(s, locationId).outcome.Done?
    ensures Unregister(Register(s, locationId).post, locationId) == Step(Done, s)
  {
  }

  /** Decrementing by what was just incremented restores the state. */
  lemma DecrementUndoesIncrement(s: Snapshot, locationId: string, itemId: string, quantity: int)
    requires ValidSnapshot(s)
    requires Increment(s, locationId, itemId, quantity).outcome.Done?
    ensures Decrement(Increment(s, locationId, itemId, quantity).post, locationId, itemId, quantity)
      == Step(Done, s)
  {
    var inv := AddedTo(s[locationId], itemId, quantity).value;
    var t := s[locationId := inv];
    assert Increment(s, locationId, itemId, quantity).post == t;
    assert itemId in inv && ItemQuantity(inv, itemId) >= quantity > 0;
    assert Decrement(t, locationId, itemId, quantity) == Step(Done, t[locationId := RemovedFrom(inv, itemId, quantity)]);
    RemoveUndoesAdd(s[locationId], itemId, quantity);
    assert t[locationId := RemovedFrom(inv, itemId, quantity)] == s;
  }

  /** Putting back the two entries that were overwritten restores the map. */
  lemma RestoreTwo(s: Snapshot, p: string, q: string, x: Inventory, y: Inventory)
    requires p in s && q in s && p != q
    ensures s[p := x][q := y][q := s[q]][p := s[p]] == s
  {
  }

  /** Transferring the same quantity back restores the state. */
  lemma TransferBack(s: Snapshot, src: string, dst: string, itemId: string, quantity: int)
    requires ValidSnapshot(s)
    requires Transfer(s, src, dst, itemId, quantity).outcome.Done?
    ensures Transfer(Transfer(s, src, dst, itemId, quantity).post, dst, src, itemId, quantity)
      == Step(Done, s)
  {
    if src == dst {
      TransferToSelf(s, src, itemId, quantity);
    } else {
      var a := s[src];
      var b := s[dst];
      var a1 := RemovedFrom(a, itemId, quantity);
      var b1 := AddedTo(b, itemId, quantity).value;
      var post := s[src := a1][dst := b1];
      assert post == Transfer(s, src, dst, itemId, quantity).post;
      RemoveUndoesAdd(b, itemId, quantity);
      AddUndoesRemove(a, itemId, quantity);
      assert post[dst] == b1 && post[dst := b][src] == a1;
      assert Transfer(post, dst, src, itemId, quantity) == Step(Done, post[dst := b][src := a]);
      RestoreTwo(s, src, dst, a1, b1);
    }
  }

  // ---------------------------------------------------------------------------
  // The service object
  // ---------------------------------------------------------------------------

  class WarehouseService {
    var locations: map<string, Location>
    /** The abstract state: each location's inventory, by location id. */
    ghost var state: Snapshot
    /** The snapshots handed to storage, oldest first. */
    ghost var saved: seq<Snapshot>

    /** Each location sits under its own id, is valid, is a distinct object,
        and its inventory is what `state` records for it. */
    ghost predicate Valid()
      reads this`locations, this`state, locations.Values
      ensures Valid() ==> ValidSnapshot(state)
    {
      && locations.Keys == state.Keys
      && (forall l | l in locations ::
            && locations[l].locationId == l
            && locations[l].Valid()
            && locations[l].inventory == state[l])
      && (forall l, m | l in locations && m in locations && l != m :: locations[l] != locations[m])
    }

    /** `WarehouseService(storage)`: adopts the locations storage loaded. */
    constructor (loaded: map<string, Location>)
      requires forall l | l in loaded :: loaded[l].locationId == l && loaded[l].Valid()
      requires forall l, m | l in loaded && m in loaded && l != m :: loaded[l] != loaded[m]
      ensures Valid() && locations == loaded && saved == []
      ensures state == map l | l in loaded :: loaded[l].inventory
    {
      locations := loaded;
      state := map l | l in loaded :: loaded[l].inventory;
      saved := [];
    }

    /** `_save_state`: hands the whole current state to storage. */
    method SaveState()
      modifies this`saved
      ensures saved == old(saved) + [state]
      ensures Valid() == old(Valid())
    {
      saved := saved + [state];
    }

    method RegisterLocation(locationId: string) returns (r: Outcome)
      requires Valid()
      modifies this
      ensures Valid()
      ensures Step(r, state) == Register(old(state), locationId)
      ensures saved == old(saved) + (if r.Done? then [state] else [])
    {
      if locationId in locations {
        return Failed(LocationAlreadyExists(locationId));
      }
      var check := CheckLocationId(locationId);
      if check.Failed? {
        return check;
      }
      var location := new Location(locationId);
      locations := locations[locationId := location];
      state := state[locationId := map[]];
      SaveState();
      r := Done;
    }

    method UnregisterLocation(locationId: string) returns (r: Outcome)
      requires Valid()
      modifies this
      ensures Valid()
      ensures Step(r, state) == Unregister(old(state), locationId)
      ensures saved == old(saved) + (if r.Done? then [state] else [])
    {
      if locationId !in locations {
        return Failed(LocationNotFound(locationId));
      }
      var location := locations[locationId];
      if HasInventory(location.inventory) {
        return Failed(LocationHasInventory(locationId));
      }
      locations := locations - {locationId};
      state := state - {locationId};
      SaveState();
      r := Done;
    }

    /** `locations[loc].add_item(...)`, with the abstract state kept in step. */
    method AddAt(loc: string, itemId: string, quantity: int) returns (r: Outcome)
      requires Valid() && loc in locations && quantity > 0
      modifies this`state, locations[loc]
      ensures Valid()
      ensures r.Done? <==> AddedTo(old(state)[loc], itemId, quantity).Ok?
      ensures r.Done? ==> state == old(state)[loc := AddedTo(old(state)[loc], itemId, quantity).value]
      ensures r.Failed? ==>
        state == old(state) && r.error == AddedTo(old(state)[loc], itemId, quantity).error
    {
      var location := locations[loc];
      r := location.AddItem(itemId, quantity);
      state := state[loc := location.inventory];
      forall l | l in locations
        ensures locations[l].Valid() && locations[l].inventory == state[l]
      {
        if l != loc {
          assert locations[l] != location;
        }
      }
    }

    /** `locations[loc].remove_item(...)`, with the abstract state kept in step. */
    method RemoveAt(loc: string, itemId: string, quantity: int)
      requires Valid() && loc in locations
      requires itemId in state[loc] && 0 < quantity <= state[loc][itemId].quantity
      modifies this`state, locations[loc]
      ensures Valid()
      ensures state == old(state)[loc := RemovedFrom(old(state)[loc], itemId, quantity)]
    {
      var location := locations[loc];
      location.RemoveItem(itemId, quantity);
      state := state[loc := location.inventory];
      forall l | l in locations
        ensures locations[l].Valid() && locations[l].inventory == state[l]
      {
        if l != loc {
          assert locations[l] != location;
        }
      }
    }

    method IncrementInventory(locationId: string, itemId: string, quantity: int) returns (r: Outcome)
      requires Valid()
      modifies this, locations.Values
      ensures Valid()
      ensures Step(r, state) == Increment(old(state), locationId, itemId, quantity)
      ensures saved == old(saved) + (if r.Done? then [state] else [])
    {
      if locationId !in locations {
        return Failed(LocationNotFound(locationId));
      }
      if quantity <= 0 {
        return Failed(QuantityNotPositive);
      }
      r := AddAt(locationId, itemId, quantity);
      if r.Failed? {
        return;
      }
      SaveState();
    }

    method DecrementInventory(locationId: string, itemId: string, quantity: int) returns (r: Outcome)
      requires Valid()
      modifies this, locations.Values
      ensures Valid()
      ensures Step(r, state) == Decrement(old(state), locationId, itemId, quantity)
      ensures saved == old(saved) + (if r.Done? then [state] else [])
    {
      if locationId !in locations {
        return Failed(LocationNotFound(locationId));
      }
      if quantity <= 0 {
        return Failed(QuantityNotPositive);
      }
      var location := locations[locationId];
      if itemId !in location.inventory {
        return Failed(ItemNotFound(itemId, locationId));
      }
      var available := ItemQuantity(location.inventory, itemId);
      if quantity > available {
        return Failed(InsufficientQuantity(itemId, locationId, quantity, available));
      }
      RemoveAt(locationId, itemId, quantity);
      SaveState();
      r := Done;
    }

    method TransferInventory(src: string, dst: string, itemId: string, quantity: int) returns (r: Outcome)
      requires Valid()
      modifies this, locations.Values
      ensures Valid()
      ensures Step(r, state) == Transfer(old(state), src, dst, itemId, quantity)
      ensures saved == old(saved) + (if r.Done? then [state] else [])
    {
      if src !in locations {
        return Failed(LocationNotFound(src));
      }
      if dst !in locations {
        return Failed(LocationNotFound(dst));
      }
      if quantity <= 0 {
        return Failed(QuantityNotPositive);
      }
      var source := locations[src];
      if itemId !in source.inventory {
        return Failed(ItemNotFound(itemId, src));
      }
      var available := ItemQuantity(source.inventory, itemId);
      if quantity > available {
        return Failed(InsufficientQuantity(itemId, src, quantity, available));
      }
      // the item sits in a valid inventory, so its id is an identifier and
      // adding it to the destination cannot fail
      assert IsIdentifier(itemId) by { assert ValidInventory(state[src]); }
      RemoveAt(src, itemId, quantity);
      r := AddAt(dst, itemId, quantity);
      SaveState();
    }

    method ObserveInventory(locationId: string) returns (r: Result<seq<InventoryItem>>)
      requires Valid()
      ensures r == Observe(state, locationId)
    {
      if locationId !in locations {
        return Err(LocationNotFound(locationId));
      }
      var location := locations[locationId];
      r := Ok(SortedItems(location.inventory));
    }
  }
}
