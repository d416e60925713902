/**
 * The inventory manager: it owns the inventory and the item database,
 * resolves item ids through the database, and applies loaded save data to
 * the inventory.
 */
module InventoryManagers {
  import opened Wrappers
  import opened InventorySlots
  import opened Inventories
  import opened InventorySerializers
  import opened ItemDatabases

  /** Resolving an id through a database that may be missing: no database finds nothing. */
  function Resolve(index: Option<map<string, ItemDef>>, id: string): (r: Option<ItemDef>)
    ensures index.None? ==> r.None?
    ensures index.Some? ==> r == Lookup(index.value, id)
  {
    if index.None? then None else Lookup(index.value, id)
  }

  /**
   * Applying one loaded record: a null record, a blank or unresolvable id and
   * an out-of-range index are skipped; otherwise the slot receives the item
   * and the saved quantity as they are.
   */
  function ApplyRecord(s: seq<Slot>, record: Option<SlotRecord>, index: Option<map<string, ItemDef>>): (r: seq<Slot>)
    ensures |r| == |s|
    ensures var applies := record.Some? && !IsBlank(record.value.itemId)
                           && Resolve(index, record.value.itemId).Some?
                           && 0 <= record.value.slotIndex < |s|;
      && (!applies ==> r == s)
      && (applies ==> r == s[record.value.slotIndex := Slot(Resolve(index, record.value.itemId), record.value.quantity)])
  {
    if record.None? || IsBlank(record.value.itemId) then s
    else
      var item := Resolve(index, record.value.itemId);
      if item.None? then s
      else if !(0 <= record.value.slotIndex < |s|) then s
      else s[record.value.slotIndex := Slot(item, record.value.quantity)]
  }

  /** Applying records in list order. */
  function ApplyRecords(s: seq<Slot>, records: seq<Option<SlotRecord>>, index: Option<map<string, ItemDef>>): (r: seq<Slot>)
    ensures |r| == |s|
  {
    if |records| == 0 then s
    else ApplyRecord(ApplyRecords(s, records[..|records| - 1], index), records[|records| - 1], index)
  }

  /** The slot a use request acts on, if any, and the action its item carries. */
  function UseTarget(s: seq<Slot>, slotIndex: int): (action: Option<ActionRef>)
    ensures action.Some? <==> 0 <= slotIndex < |s| && !IsEmpty(s[slotIndex]) && s[slotIndex].item.value.useAction.Some?
    ensures action.Some? ==> action == s[slotIndex].item.value.useAction
  {
    if !(0 <= slotIndex < |s|) || IsEmpty(s[slotIndex]) then None
    else s[slotIndex].item.value.useAction
  }

  class InventoryManager {
    var itemDatabase: ItemDatabase?
    var inventory: Inventory?

    /** The manager once initialized: the inventory exists; the database may be missing. */
    constructor(itemDatabase: ItemDatabase?, inventory: Inventory)
      ensures this.itemDatabase == itemDatabase && this.inventory == inventory
    {
      this.itemDatabase := itemDatabase;
      this.inventory := inventory;
    }

    /** The index lookups go through: none without a database. */
    ghost function Index(): Option<map<string, ItemDef>>
      reads this, itemDatabase
    {
      if itemDatabase == null then None else Some(itemDatabase.Resolver())
    }

    method LookUp(id: string) returns (item: Option<ItemDef>)
      modifies itemDatabase
      ensures Index() == old(Index())
      ensures item == Resolve(old(Index()), id)
    {
      if itemDatabase == null {
        return None;
      }
      item := itemDatabase.GetById(id);
    }

    /** Adds by id: an id that does not resolve hands the whole quantity back and changes nothing. */
    method AddItemById(itemId: string, quantity: int) returns (remaining: int)
      requires inventory != null
      modifies inventory.slots, itemDatabase
      ensures Index() == old(Index())
      ensures Progress(inventory.slots[..], remaining)
              == AddItemSpec(old(inventory.slots[..]), Resolve(old(Index()), itemId), quantity)
    {
      var item := LookUp(itemId);
      if item.None? {
        return quantity;
      }
      remaining := inventory.AddItem(item, quantity);
    }

    /** Chooses the action to run for a slot: nothing for an invalid or empty slot, or an item without an action. */
    method UseItem(slotIndex: int) returns (action: Option<ActionRef>)
      requires inventory != null
      ensures action == UseTarget(inventory.slots[..], slotIndex)
    {
      var slot := inventory.GetSlot(slotIndex);
      if slot.None? || IsEmpty(slot.value) {
        return None;
      }
      action := slot.value.item.value.useAction;
    }

    /** Clears every slot, then applies the loaded records in order; nothing happens without data or an inventory. */
    method ApplyLoadedInventory(loaded: Option<SaveData>)
      modifies if inventory == null then {} else {inventory.slots}, itemDatabase
      ensures Index() == old(Index())
      ensures (loaded.None? || inventory == null) ==> inventory == null || inventory.slots[..] == old(inventory.slots[..])
      ensures loaded.Some? && inventory != null ==>
                inventory.slots[..] == ApplyRecords(Cleared(inventory.slots.Length), loaded.value.slots, old(Index()))
    {
      if loaded.None? || inventory == null {
        return;
      }
      inventory.Clear();
      var records := loaded.value.slots;
      var slots := inventory.slots;
      ghost var index := Index();
      for k := 0 to |records|
        invariant inventory != null && inventory.slots == slots
        invariant Index() == index
        invariant slots[..] == ApplyRecords(Cleared(slots.Length), records[..k], index)
      {
        assert records[..k + 1][..k] == records[..k];
        var record := records[k];
        if record.Some? && !IsBlank(record.value.itemId) {
          var item := LookUp(record.value.itemId);
          if item.Some? {
            var target := inventory.GetSlot(record.value.slotIndex);
            if target.Some? {
              slots[record.value.slotIndex] := Slot(item, record.value.quantity);
            }
          }
        }
      }
      assert records[..|records|] == records;
    }
  }

  // ---------------------------------------------------------------------
  // Properties
  // ---------------------------------------------------------------------

  /** Every occupied slot's item is what its id resolves to. */
  predicate Resolvable(s: seq<Slot>, index: map<string, ItemDef>)
  {
    forall j :: 0 <= j < |s| && !IsEmpty(s[j]) ==> Lookup(index, s[j].item.value.id) == s[j].item
  }

  /** Applying the records of the first k slots to cleared slots rebuilds those k slots. */
  lemma {:induction false} ApplyRecordsOfPrefix(s: seq<Slot>, index: map<string, ItemDef>, k: nat)
    requires k <= |s| && Canonical(s) && Resolvable(s, index)
    ensures ApplyRecords(Cleared(|s|), Records(s[..k]), Some(index)) == s[..k] + Cleared(|s| - k)
    decreases k
  {
    if k > 0 {
      ApplyRecordsOfPrefix(s, index, k - 1);
      if IsEmpty(s[k - 1]) {
        PrefixStepEmpty(s, k);
      } else {
        PrefixStepOccupied(s, index, k);
      }
    }
  }

  /** An empty slot adds no record, and, being cleared, leaves the rebuilt slots as they were. */
  lemma PrefixStepEmpty(s: seq<Slot>, k: nat)
    requires 0 < k <= |s| && Canonical(s) && IsEmpty(s[k - 1])
    ensures Records(s[..k]) == Records(s[..k - 1])
    ensures s[..k] + Cleared(|s| - k) == s[..k - 1] + Cleared(|s| - (k - 1))
  {
    assert s[..k][..k - 1] == s[..k - 1];
  }

  /** An occupied slot adds its record, which puts the slot back at its index. */
  lemma PrefixStepOccupied(s: seq<Slot>, index: map<string, ItemDef>, k: nat)
    requires 0 < k <= |s| && Resolvable(s, index) && !IsEmpty(s[k - 1])
    requires ApplyRecords(Cleared(|s|), Records(s[..k - 1]), Some(index)) == s[..k - 1] + Cleared(|s| - (k - 1))
    ensures ApplyRecords(Cleared(|s|), Records(s[..k]), Some(index)) == s[..k] + Cleared(|s| - k)
  {
    var i := k - 1;
    assert s[..k][..i] == s[..i];
    var before := ApplyRecords(Cleared(|s|), Records(s[..i]), Some(index));
    var rec := Some(SlotRecord(i, s[i].item.value.id, s[i].quantity));
    assert Records(s[..k]) == Records(s[..i]) + [rec];
    assert (Records(s[..i]) + [rec])[..|Records(s[..i])|] == Records(s[..i]);
    assert ApplyRecord(before, rec, Some(index)) == s[..k] + Cleared(|s| - k);
  }

  /**
   * Saving an inventory and applying the save to cleared slots of the same
   * number reproduces it, when every empty slot is cleared and every item
   * resolves to itself through the database.
   */
  lemma SaveThenLoadRestores(s: seq<Slot>, index: map<string, ItemDef>)
    requires Canonical(s) && Resolvable(s, index)
    ensures ApplyRecords(Cleared(|s|), Records(s), Some(index)) == s
  {
    ApplyRecordsOfPrefix(s, index, |s|);
    assert s[..|s|] == s;
    assert s + Cleared(0) == s;
  }

  /** Applying one record after another for the same slot leaves what the second one alone leaves. */
  lemma SecondRecordOverwrites(base: seq<Slot>, a: SlotRecord, b: SlotRecord, index: Option<map<string, ItemDef>>)
    requires a.slotIndex == b.slotIndex && 0 <= a.slotIndex < |base|
    requires !IsBlank(a.itemId) && Resolve(index, a.itemId).Some?
    requires !IsBlank(b.itemId) && Resolve(index, b.itemId).Some?
    ensures ApplyRecord(ApplyRecord(base, Some(a), index), Some(b), index) == ApplyRecord(base, Some(b), index)
  {
    var i := a.slotIndex;
    var afterA := ApplyRecord(base, Some(a), index);
    assert afterA == base[i := Slot(Resolve(index, a.itemId), a.quantity)];
  }

  /** Of two applicable records for the same slot, the later one decides its contents. */
  lemma LaterRecordWins(s: seq<Slot>, records: seq<Option<SlotRecord>>, a: SlotRecord, b: SlotRecord, index: Option<map<string, ItemDef>>)
    requires a.slotIndex == b.slotIndex && 0 <= a.slotIndex < |s|
    requires !IsBlank(a.itemId) && Resolve(index, a.itemId).Some?
    requires !IsBlank(b.itemId) && Resolve(index, b.itemId).Some?
    ensures ApplyRecords(s, records + [Some(a), Some(b)], index) == ApplyRecords(s, records + [Some(b)], index)
  {
    var ra := records + [Some(a)];
    var rab := ra + [Some(b)];
    var rb := records + [Some(b)];
    assert records + [Some(a), Some(b)] == rab;
    assert rab[..|rab| - 1] == ra && ra[..|ra| - 1] == records && rb[..|rb| - 1] == records;
    var base := ApplyRecords(s, records, index);
    assert ApplyRecords(s, ra, index) == ApplyRecord(base, Some(a), index);
    assert ApplyRecords(s, rab, index) == ApplyRecord(ApplyRecord(base, Some(a), index), Some(b), index);
    assert ApplyRecords(s, rb, index) == ApplyRecord(base, Some(b), index);
    SecondRecordOverwrites(base, a, b, index);
  }
}
