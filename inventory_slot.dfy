/**
 * Item definitions and inventory slots. An item definition is an asset
 * compared by reference; the model compares it as a value. A slot holds an
 * optional item and a quantity that nothing forces to be positive.
 */
module InventorySlots {
  import opened Wrappers

  /** Identity of a category asset; a missing category is `None`. */
  datatype CategoryRef = CategoryRef(handle: nat)

  /** Identity of a use-action asset; the action itself runs code outside the model. */
  datatype ActionRef = ActionRef(handle: nat)

  /** The serialized fields of an item definition that the inventory reads. */
  datatype ItemDef = ItemDef(
    id: string,
    displayName: string,
    category: Option<CategoryRef>,
    maxStackSize: int,
    useAction: Option<ActionRef>)

  /** The stack limit used everywhere: the serialized field, but at least 1. */
  function MaxStack(item: ItemDef): (m: int)
    ensures m >= 1 && m >= item.maxStackSize
    ensures item.maxStackSize >= 1 ==> m == item.maxStackSize
  {
    Max(1, item.maxStackSize)
  }

  datatype Slot = Slot(item: Option<ItemDef>, quantity: int)

  const EmptySlot := Slot(None, 0)

  /** Empty when no item is set or the quantity is not positive; an item may linger in an empty slot. */
  predicate IsEmpty(s: Slot)
  {
    s.item.None? || s.quantity <= 0
  }

  /** Clearing drops the item and zeroes the quantity. */
  function Clear(s: Slot): (r: Slot)
    ensures IsEmpty(r) && r.item.None? && r.quantity == 0
  {
    EmptySlot
  }

  /** Stacking needs an item on both sides and equal ids; the quantity is not consulted. */
  predicate CanStackWith(s: Slot, item: Option<ItemDef>)
  {
    s.item.Some? && item.Some? && s.item.value.id == item.value.id
  }

  /** Room left under the slot's own item's stack limit; negative when the slot is overfull. */
  function RemainingCapacity(s: Slot): (c: int)
    ensures s.item.None? ==> c == 0
    ensures s.item.Some? ==> c + s.quantity == MaxStack(s.item.value)
  {
    if s.item.None? then 0 else MaxStack(s.item.value) - s.quantity
  }
}
