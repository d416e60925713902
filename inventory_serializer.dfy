/**
 * Save data for an inventory: one record per occupied slot, carrying the
 * slot's index, its item's id and its quantity.
 */
module InventorySerializers {
  import opened Wrappers
  import opened InventorySlots
  import opened Inventories

  datatype SlotRecord = SlotRecord(slotIndex: int, itemId: string, quantity: int)

  /** The saved list; entries read back from storage may be null. */
  datatype SaveData = SaveData(slots: seq<Option<SlotRecord>>)

  /** The records of the occupied slots among `s`, in index order. */
  function Records(s: seq<Slot>): (r: seq<Option<SlotRecord>>)
    ensures |r| <= |s|
  {
    if |s| == 0 then []
    else
      var i := |s| - 1;
      Records(s[..i]) + (if IsEmpty(s[i]) then [] else [Some(SlotRecord(i, s[i].item.value.id, s[i].quantity))])
  }

  /** Walks the slots in order, writing a record for each occupied one; no inventory gives no records. */
  method ToSaveData(inventory: Inventory?) returns (data: SaveData)
    ensures inventory == null ==> data.slots == []
    ensures inventory != null ==> data.slots == Records(inventory.slots[..])
  {
    data := SaveData([]);
    if inventory == null {
      return;
    }
    var slots := inventory.slots;
    for i := 0 to slots.Length
      invariant data.slots == Records(slots[..i])
    {
      assert slots[..i + 1][..i] == slots[..i];
      if !IsEmpty(slots[i]) {
        data := SaveData(data.slots + [Some(SlotRecord(i, slots[i].item.value.id, slots[i].quantity))]);
      }
    }
    assert slots[..slots.Length] == slots[..];
  }

  /**
   * Every record is present, describes an occupied slot exactly, and the
   * indices strictly increase within range; every occupied slot has a record.
   */
  lemma {:induction false} RecordsDescribeOccupiedSlots(s: seq<Slot>)
    ensures var r := Records(s);
      && |r| == |Occupied(s)|
      && (forall k :: 0 <= k < |r| ==>
            && r[k].Some?
            && 0 <= r[k].value.slotIndex < |s|
            && !IsEmpty(s[r[k].value.slotIndex])
            && r[k].value.itemId == s[r[k].value.slotIndex].item.value.id
            && r[k].value.quantity == s[r[k].value.slotIndex].quantity)
      && (forall k, l :: 0 <= k < l < |r| ==> r[k].value.slotIndex < r[l].value.slotIndex)
      && (forall i :: 0 <= i < |s| && !IsEmpty(s[i]) ==> exists k :: 0 <= k < |r| && r[k].value.slotIndex == i)
  {
    RecordsDescribeSlots(s);
    RecordsIncrease(s);
    RecordsCoverOccupied(s);
  }

  /** The records are as many as the occupied slots, and each describes one of them exactly. */
  lemma {:induction false} RecordsDescribeSlots(s: seq<Slot>)
    ensures var r := Records(s);
      && |r| == |Occupied(s)|
      && (forall k :: 0 <= k < |r| ==>
            && r[k].Some?
            && 0 <= r[k].value.slotIndex < |s|
            && !IsEmpty(s[r[k].value.slotIndex])
            && r[k].value.itemId == s[r[k].value.slotIndex].item.value.id
            && r[k].value.quantity == s[r[k].value.slotIndex].quantity)
    decreases |s|
  {
    if |s| > 0 {
      var i := |s| - 1;
      RecordsDescribeSlots(s[..i]);
      var r0 := Records(s[..i]);
      forall k | 0 <= k < |r0| ensures s[r0[k].value.slotIndex] == s[..i][r0[k].value.slotIndex] {
      }
    }
  }

  /** The slot indices of the records strictly increase. */
  lemma {:induction false} RecordsIncrease(s: seq<Slot>)
    ensures var r := Records(s);
      forall k, l :: 0 <= k < l < |r| ==> r[k].Some? && r[l].Some? && r[k].value.slotIndex < r[l].value.slotIndex
    decreases |s|
  {
    if |s| > 0 {
      var i := |s| - 1;
      RecordsIncrease(s[..i]);
      RecordsDescribeSlots(s[..i]);
    }
  }

  /** Every occupied slot has a record. */
  lemma {:induction false} RecordsCoverOccupied(s: seq<Slot>)
    ensures var r := Records(s);
      forall i :: 0 <= i < |s| && !IsEmpty(s[i]) ==> exists k :: 0 <= k < |r| && r[k].Some? && r[k].value.slotIndex == i
    decreases |s|
  {
    if |s| > 0 {
      var i := |s| - 1;
      RecordsCoverOccupied(s[..i]);
      var r := Records(s);
      var r0 := Records(s[..i]);
      forall j | 0 <= j < i && !IsEmpty(s[j]) ensures exists k :: 0 <= k < |r| && r[k].Some? && r[k].value.slotIndex == j {
        assert s[..i][j] == s[j];
        var k :| 0 <= k < |r0| && r0[k].Some? && r0[k].value.slotIndex == j;
        assert r[k] == r0[k];
      }
      if !IsEmpty(s[i]) {
        assert r == r0 + [Some(SlotRecord(i, s[i].item.value.id, s[i].quantity))];
        assert r[|r0|].Some? && r[|r0|].value.slotIndex == i;
      }
      assert r == Records(s);
    }
  }
}
