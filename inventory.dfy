/**
 * The slot inventory: a fixed number of slots rewritten in place. Each
 * operation is specified by a function on the sequence of slots; the
 * methods of `Inventory` are proved to produce exactly that sequence.
 */
module Inventories {
  import opened Wrappers
  import opened Sorting
  import opened InventorySlots

  // ---------------------------------------------------------------------
  // Counting
  // ---------------------------------------------------------------------

  /** Units of `id` a slot holds: its quantity when it is not empty and holds that id, else 0. */
  function Held(s: Slot, id: string): (n: int)
    ensures n >= 0
    ensures n > 0 <==> !IsEmpty(s) && s.item.value.id == id
  {
    if !IsEmpty(s) && s.item.value.id == id then s.quantity else 0
  }

  /** Units of `id` held across a sequence of slots. */
  function Units(s: seq<Slot>, id: string): (n: int)
    ensures n >= 0
  {
    if |s| == 0 then 0 else Units(s[..|s| - 1], id) + Held(s[|s| - 1], id)
  }

  /** No slot has a negative quantity. Only loading saved records can break this. */
  predicate NonNegative(s: seq<Slot>)
  {
    forall j :: 0 <= j < |s| ==> s[j].quantity >= 0
  }

  /** Every empty slot is the cleared slot: no item lingers in an empty slot. */
  predicate Canonical(s: seq<Slot>)
  {
    forall j :: 0 <= j < |s| && IsEmpty(s[j]) ==> s[j] == EmptySlot
  }

  /** `n` empty slots. */
  function Cleared(n: nat): (r: seq<Slot>)
    ensures |r| == n && forall j :: 0 <= j < n ==> r[j] == EmptySlot
  {
    seq(n, _ => EmptySlot)
  }

  // ---------------------------------------------------------------------
  // AddItem: a stacking pass, then a filling pass, both in index order
  // ---------------------------------------------------------------------

  /** The slots and the quantity still to place, as the two passes carry them. */
  datatype Progress = Progress(slots: seq<Slot>, remaining: int)

  /** One index of the stacking pass: top up a slot with the same id, by at most its capacity. */
  function StackStep(p: Progress, i: nat, item: ItemDef): (r: Progress)
    requires i < |p.slots|
    ensures |r.slots| == |p.slots|
  {
    if p.remaining <= 0 then p
    else
      var slot := p.slots[i];
      if !CanStackWith(slot, Some(item)) then p
      else
        var canAdd := Min(RemainingCapacity(slot), p.remaining);
        if canAdd <= 0 then p
        else Progress(p.slots[i := slot.(quantity := slot.quantity + canAdd)], p.remaining - canAdd)
  }

  /** The stacking pass over indices 0 .. k-1. */
  function StackPass(p: Progress, item: ItemDef, k: nat): (r: Progress)
    requires k <= |p.slots|
    ensures |r.slots| == |p.slots|
    decreases k
  {
    if k == 0 then p else StackStep(StackPass(p, item, k - 1), k - 1, item)
  }

  /** One index of the filling pass: put a full stack, or what is left, into an empty slot. */
  function FillStep(p: Progress, i: nat, item: ItemDef): (r: Progress)
    requires i < |p.slots|
    ensures |r.slots| == |p.slots|
  {
    if p.remaining <= 0 || !IsEmpty(p.slots[i]) then p
    else
      var add := Min(MaxStack(item), p.remaining);
      Progress(p.slots[i := Slot(Some(item), add)], p.remaining - add)
  }

  /** The filling pass over indices 0 .. k-1. */
  function FillPass(p: Progress, item: ItemDef, k: nat): (r: Progress)
    requires k <= |p.slots|
    ensures |r.slots| == |p.slots|
    decreases k
  {
    if k == 0 then p else FillStep(FillPass(p, item, k - 1), k - 1, item)
  }

  /** Adding: no item or a non-positive quantity changes nothing and hands the quantity back. */
  function AddItemSpec(s: seq<Slot>, item: Option<ItemDef>, quantity: int): (r: Progress)
    ensures |r.slots| == |s|
  {
    if item.None? || quantity <= 0 then Progress(s, quantity)
    else FillPass(StackPass(Progress(s, quantity), item.value, |s|), item.value, |s|)
  }

  /**
   * Some slot is empty or below its own item's stack limit. The test does
   * not look at which item a slot holds, so room in a stack of another item
   * counts too.
   */
  predicate HasRoom(s: seq<Slot>)
  {
    exists i :: 0 <= i < |s| && (IsEmpty(s[i]) || RemainingCapacity(s[i]) > 0)
  }

  // ---------------------------------------------------------------------
  // RemoveAt, Swap, Move
  // ---------------------------------------------------------------------

  /** Removing up to `quantity` units from one slot; a slot brought to 0 is cleared. */
  function RemoveAtSpec(s: seq<Slot>, index: int, quantity: int): (r: (seq<Slot>, bool))
    ensures |r.0| == |s|
  {
    if !(0 <= index < |s|) || quantity <= 0 || IsEmpty(s[index]) then (s, false)
    else
      var slot := s[index];
      var left := slot.quantity - Min(quantity, slot.quantity);
      (s[index := if left <= 0 then Clear(slot) else slot.(quantity := left)], true)
  }

  function SwapSpec(s: seq<Slot>, a: int, b: int): (r: seq<Slot>)
    ensures |r| == |s|
  {
    if !(0 <= a < |s|) || !(0 <= b < |s|) || a == b then s
    else s[a := s[b]][b := s[a]]
  }

  /**
   * Moving a stack: into an empty slot it moves whole; onto the same id it
   * tops the target up, or swaps when the target is already full; onto a
   * different item it swaps.
   */
  function MoveSpec(s: seq<Slot>, from: int, to: int): (r: seq<Slot>)
    ensures |r| == |s|
  {
    if !(0 <= from < |s|) || !(0 <= to < |s|) || from == to || IsEmpty(s[from]) then s
    else
      var f := s[from];
      var t := s[to];
      if IsEmpty(t) then s[to := Slot(f.item, f.quantity)][from := Clear(f)]
      else if CanStackWith(t, f.item) then
        var moveQty := Min(f.quantity, RemainingCapacity(t));
        if moveQty > 0 then
          var left := f.quantity - moveQty;
          s[to := t.(quantity := t.quantity + moveQty)][from := if left <= 0 then Clear(f) else f.(quantity := left)]
        else SwapSpec(s, from, to)
      else SwapSpec(s, from, to)
  }

  // ---------------------------------------------------------------------
  // Category query and sorting
  // ---------------------------------------------------------------------

  /** A slot listed by a category query: occupied, with an item of exactly that category. */
  predicate InCategory(s: Slot, category: Option<CategoryRef>)
  {
    !IsEmpty(s) && s.item.value.category == category
  }

  /** The occupied slots, in index order. */
  function Occupied(s: seq<Slot>): (r: seq<Slot>)
    ensures |r| <= |s|
    ensures forall j :: 0 <= j < |r| ==> !IsEmpty(r[j])
  {
    if |s| == 0 then []
    else Occupied(s[..|s| - 1]) + (if IsEmpty(s[|s| - 1]) then [] else [s[|s| - 1]])
  }

  /**
   * `r` is a result sorting may leave from `s`: the occupied stacks, ordered
   * by `le` (equal ones in any order, the list sort not being stable), then
   * as many empty slots as are needed.
   */
  ghost predicate IsSortOf(s: seq<Slot>, r: seq<Slot>, le: (Slot, Slot) -> bool)
  {
    var n := |Occupied(s)|;
    && |r| == |s|
    && SortedBy(r[..n], le) && multiset(r[..n]) == multiset(Occupied(s))
    && r[n..] == Cleared(|s| - n)
  }

  /** Ordinal string order: compare characters by code, a proper prefix first. */
  predicate OrdinalLe(a: string, b: string)
    decreases |a|
  {
    if |a| == 0 then true
    else if |b| == 0 then false
    else if a[0] != b[0] then a[0] < b[0]
    else OrdinalLe(a[1..], b[1..])
  }

  function DisplayName(s: Slot): string
  {
    if s.item.Some? then s.item.value.displayName else ""
  }

  lemma {:induction false} OrdinalLeTotal(a: string, b: string)
    ensures OrdinalLe(a, b) || OrdinalLe(b, a)
    decreases |a|
  {
    if |a| > 0 && |b| > 0 && a[0] == b[0] {
      OrdinalLeTotal(a[1..], b[1..]);
    }
  }

  lemma {:induction false} OrdinalLeTransitive(a: string, b: string, c: string)
    requires OrdinalLe(a, b) && OrdinalLe(b, c)
    ensures OrdinalLe(a, c)
    decreases |a|
  {
    if |a| > 0 && |b| > 0 && |c| > 0 && a[0] == b[0] && b[0] == c[0] {
      OrdinalLeTransitive(a[1..], b[1..], c[1..]);
    }
  }

  /** The ordinal order is total and transitive. */
  lemma OrdinalLePreorder()
    ensures forall a, b :: OrdinalLe(a, b) || OrdinalLe(b, a)
    ensures forall a, b, c :: OrdinalLe(a, b) && OrdinalLe(b, c) ==> OrdinalLe(a, c)
  {
    forall a, b ensures OrdinalLe(a, b) || OrdinalLe(b, a) {
      OrdinalLeTotal(a, b);
    }
    forall a, b, c | OrdinalLe(a, b) && OrdinalLe(b, c) ensures OrdinalLe(a, c) {
      OrdinalLeTransitive(a, b, c);
    }
  }

  /** The order of sort-by-name, ordinal on display names; it is a total preorder. */
  function NameLe(): (le: (Slot, Slot) -> bool)
    ensures TotalPreorder(le)
    ensures forall a, b :: le(a, b) == OrdinalLe(DisplayName(a), DisplayName(b))
  {
    OrdinalLePreorder();
    (a: Slot, b: Slot) => OrdinalLe(DisplayName(a), DisplayName(b))
  }

  /** The order of sort-by-quantity, larger stacks first; it is a total preorder. */
  function QuantityLe(): (le: (Slot, Slot) -> bool)
    ensures TotalPreorder(le)
    ensures forall a, b :: le(a, b) == (a.quantity >= b.quantity)
  {
    (a: Slot, b: Slot) => a.quantity >= b.quantity
  }

  // ---------------------------------------------------------------------
  // The inventory object
  // ---------------------------------------------------------------------

  class Inventory {
    var slots: array<Slot>

    /** A non-positive slot count is raised to one; every slot starts empty. */
    constructor(slotCount: int)
      ensures fresh(slots)
      ensures slots.Length == Max(1, slotCount)
      ensures slots[..] == Cleared(Max(1, slotCount))
    {
      var n := if slotCount <= 0 then 1 else slotCount;
      slots := new Slot[n](_ => EmptySlot);
    }

    function Contents(): seq<Slot>
      reads this, slots
    {
      slots[..]
    }

    predicate IsValidIndex(index: int)
      reads this
    {
      0 <= index < slots.Length
    }

    /** The slot at a valid index, nothing otherwise. */
    function GetSlot(index: int): (r: Option<Slot>)
      reads this, slots
      ensures r.Some? <==> IsValidIndex(index)
      ensures r.Some? ==> r.value == Contents()[index]
    {
      if !IsValidIndex(index) then None else Some(slots[index])
    }

    /** Whether some slot is empty or has room under its stack limit. */
    predicate HasFreeSlot()
      reads this, slots
    {
      HasRoom(slots[..])
    }

    /** Stack into same-id slots, then fill empty ones; returns what did not fit. */
    method AddItem(item: Option<ItemDef>, quantity: int) returns (remaining: int)
      modifies slots
      ensures Progress(slots[..], remaining) == AddItemSpec(old(slots[..]), item, quantity)
    {
      if item.None? || quantity <= 0 {
        return quantity;
      }
      var it := item.value;
      ghost var start := Progress(slots[..], quantity);
      remaining := quantity;
      var i := 0;
      while i < slots.Length && remaining > 0
        invariant 0 <= i <= slots.Length
        invariant Progress(slots[..], remaining) == StackPass(start, it, i)
      {
        var slot := slots[i];
        if CanStackWith(slot, item) {
          var canAdd := Min(RemainingCapacity(slot), remaining);
          if canAdd > 0 {
            slots[i] := slot.(quantity := slot.quantity + canAdd);
            remaining := remaining - canAdd;
          }
        }
        i := i + 1;
      }
      StackPassIdle(start, it, i, slots.Length);
      ghost var stacked := Progress(slots[..], remaining);
      i := 0;
      while i < slots.Length && remaining > 0
        invariant 0 <= i <= slots.Length
        invariant Progress(slots[..], remaining) == FillPass(stacked, it, i)
      {
        if IsEmpty(slots[i]) {
          var add := Min(MaxStack(it), remaining);
          slots[i] := Slot(Some(it), add);
          remaining := remaining - add;
        }
        i := i + 1;
      }
      FillPassIdle(stacked, it, i, slots.Length);
    }

    /** Removes up to `quantity` units from one slot; false, changing nothing, when there is nothing to remove. */
    method RemoveAt(slotIndex: int, quantity: int) returns (removed: bool)
      modifies slots
      ensures (slots[..], removed) == RemoveAtSpec(old(slots[..]), slotIndex, quantity)
    {
      if !IsValidIndex(slotIndex) || quantity <= 0 {
        return false;
      }
      var slot := slots[slotIndex];
      if IsEmpty(slot) {
        return false;
      }
      var left := slot.quantity - Min(quantity, slot.quantity);
      slots[slotIndex] := if left <= 0 then InventorySlots.Clear(slot) else slot.(quantity := left);
      removed := true;
    }

    /** Exchanges the contents of two slots. */
    method Swap(a: int, b: int)
      modifies slots
      ensures slots[..] == SwapSpec(old(slots[..]), a, b)
    {
      if !IsValidIndex(a) || !IsValidIndex(b) || a == b {
        return;
      }
      var temp := slots[a];
      slots[a] := slots[b];
      slots[b] := temp;
    }

    method Move(fromIndex: int, toIndex: int)
      modifies slots
      ensures slots[..] == MoveSpec(old(slots[..]), fromIndex, toIndex)
    {
      if !IsValidIndex(fromIndex) || !IsValidIndex(toIndex) || fromIndex == toIndex {
        return;
      }
      var from := slots[fromIndex];
      var to := slots[toIndex];
      if IsEmpty(from) {
        return;
      }
      if IsEmpty(to) {
        slots[toIndex] := Slot(from.item, from.quantity);
        slots[fromIndex] := InventorySlots.Clear(from);
      } else if CanStackWith(to, from.item) {
        var moveQty := Min(from.quantity, RemainingCapacity(to));
        if moveQty > 0 {
          slots[toIndex] := to.(quantity := to.quantity + moveQty);
          var left := from.quantity - moveQty;
          slots[fromIndex] := if left <= 0 then InventorySlots.Clear(from) else from.(quantity := left);
        } else {
          Swap(fromIndex, toIndex);
        }
      } else {
        Swap(fromIndex, toIndex);
      }
    }

    /** Empties every slot. */
    method Clear()
      modifies slots
      ensures slots[..] == Cleared(slots.Length)
    {
      for i := 0 to slots.Length
        invariant forall j :: 0 <= j < i ==> slots[j] == EmptySlot
      {
        slots[i] := InventorySlots.Clear(slots[i]);
      }
    }

    /** The indices of the occupied slots whose item has exactly this category, in increasing order. */
    method GetSlotsByCategory(category: Option<CategoryRef>) returns (indices: seq<int>)
      ensures forall i :: i in indices <==> 0 <= i < slots.Length && InCategory(slots[i], category)
      ensures forall k, l :: 0 <= k < l < |indices| ==> indices[k] < indices[l]
    {
      indices := [];
      for i := 0 to slots.Length
        invariant forall j :: j in indices <==> 0 <= j < i && InCategory(slots[j], category)
        invariant forall k, l :: 0 <= k < l < |indices| ==> indices[k] < indices[l]
        invariant forall k :: 0 <= k < |indices| ==> indices[k] < i
      {
        if InCategory(slots[i], category) {
          indices := indices + [i];
        }
      }
    }

    /** Copies the occupied stacks out, sorts the copies, clears every slot and writes the copies back from the front. */
    method SortInternal(le: (Slot, Slot) -> bool)
      requires TotalPreorder(le)
      modifies slots
      ensures IsSortOf(old(slots[..]), slots[..], le)
    {
      var occupied := CollectOccupied();
      var sorted := SortBy(occupied, le);
      Clear();
      CopyFront(sorted);
      assert slots[..][..|occupied|] == sorted;
    }

    /** Copies of the occupied stacks, in slot order. */
    method CollectOccupied() returns (occupied: seq<Slot>)
      ensures occupied == Occupied(slots[..])
    {
      occupied := [];
      for i := 0 to slots.Length
        invariant occupied == Occupied(slots[..i])
      {
        assert slots[..i + 1][..i] == slots[..i];
        if !IsEmpty(slots[i]) {
          occupied := occupied + [Slot(slots[i].item, slots[i].quantity)];
        }
      }
      assert slots[..slots.Length] == slots[..];
    }

    /** Writes the stacks into the leading slots of an emptied inventory. */
    method CopyFront(stacks: seq<Slot>)
      requires |stacks| <= slots.Length
      requires slots[..] == Cleared(slots.Length)
      modifies slots
      ensures slots[..] == stacks + Cleared(slots.Length - |stacks|)
    {
      var i := 0;
      while i < |stacks| && i < slots.Length
        invariant 0 <= i <= |stacks|
        invariant forall j :: 0 <= j < i ==> slots[j] == stacks[j]
        invariant forall j :: i <= j < slots.Length ==> slots[j] == EmptySlot
      {
        slots[i] := stacks[i];
        i := i + 1;
      }
    }

    method SortByName()
      modifies slots
      ensures IsSortOf(old(slots[..]), slots[..], NameLe())
    {
      SortInternal(NameLe());
    }

    method SortByQuantity()
      modifies slots
      ensures IsSortOf(old(slots[..]), slots[..], QuantityLe())
    {
      SortInternal(QuantityLe());
    }
  }

  // ---------------------------------------------------------------------
  // Loop exits
  // ---------------------------------------------------------------------

  /** Once nothing remains, the rest of the stacking pass changes nothing. */
  lemma {:induction false} StackPassIdle(p: Progress, item: ItemDef, i: nat, k: nat)
    requires i <= k <= |p.slots|
    requires i == k || StackPass(p, item, i).remaining <= 0
    ensures StackPass(p, item, k) == StackPass(p, item, i)
    decreases k
  {
    if k > i {
      StackPassIdle(p, item, i, k - 1);
    }
  }

  /** Once nothing remains, the rest of the filling pass changes nothing. */
  lemma {:induction false} FillPassIdle(p: Progress, item: ItemDef, i: nat, k: nat)
    requires i <= k <= |p.slots|
    requires i == k || FillPass(p, item, i).remaining <= 0
    ensures FillPass(p, item, k) == FillPass(p, item, i)
    decreases k
  {
    if k > i {
      FillPassIdle(p, item, i, k - 1);
    }
  }
}
