/**
 * Properties of the inventory operations, stated on the functions that
 * specify them: adding conserves units and respects stack limits, moving
 * and swapping conserve units, sorting compacts and permutes the stacks.
 */
module InventoryProperties {
  import opened Wrappers
  import opened Sorting
  import opened InventorySlots
  import opened Inventories

  // ---------------------------------------------------------------------
  // Counting units
  // ---------------------------------------------------------------------

  /** Replacing one slot changes the count by what that slot held before and after. */
  lemma {:induction false} UnitsUpdate(s: seq<Slot>, i: int, x: Slot, id: string)
    requires 0 <= i < |s|
    ensures Units(s[i := x], id) == Units(s, id) - Held(s[i], id) + Held(x, id)
    decreases |s|
  {
    var t := s[i := x];
    var n := |s| - 1;
    assert t[..n] == if i == n then s[..n] else s[..n][i := x];
    if i < n {
      UnitsUpdate(s[..n], i, x, id);
    }
  }

  /** Exchanging two slots leaves every count alone. */
  lemma UnitsSwap(s: seq<Slot>, a: int, b: int, id: string)
    ensures Units(SwapSpec(s, a, b), id) == Units(s, id)
  {
    if 0 <= a < |s| && 0 <= b < |s| && a != b {
      UnitsUpdate(s, a, s[b], id);
      UnitsUpdate(s[a := s[b]], b, s[a], id);
    }
  }

  /** Empty slots hold nothing. */
  lemma {:induction false} UnitsCleared(n: nat, id: string)
    ensures Units(Cleared(n), id) == 0
    decreases n
  {
    if n > 0 {
      assert Cleared(n)[..n - 1] == Cleared(n - 1);
      UnitsCleared(n - 1, id);
    }
  }

  // ---------------------------------------------------------------------
  // AddItem, pass by pass
  // ---------------------------------------------------------------------

  /** A stacking change: same item, more units, still within that item's limit. */
  predicate Grown(a: Slot, b: Slot, item: ItemDef)
  {
    CanStackWith(a, Some(item)) && b.item == a.item && a.quantity < b.quantity <= MaxStack(a.item.value)
  }

  /** A filling change: an empty slot now holds between 1 and a full stack of the item. */
  predicate Filled(a: Slot, b: Slot, item: ItemDef)
  {
    IsEmpty(a) && b.item == Some(item) && 0 < b.quantity <= MaxStack(item)
  }

  /**
   * The stacking pass only tops up slots with the same id, each within its
   * own item's limit, and never hands back more than it was given.
   */
  lemma {:induction false} StackPassFrame(p: Progress, item: ItemDef, k: nat)
    requires k <= |p.slots|
    ensures var r := StackPass(p, item, k);
      && (p.remaining <= 0 ==> r == p)
      && (p.remaining > 0 ==> 0 <= r.remaining <= p.remaining)
      && (forall j :: k <= j < |p.slots| ==> r.slots[j] == p.slots[j])
      && (forall j :: 0 <= j < |p.slots| && r.slots[j] != p.slots[j] ==> Grown(p.slots[j], r.slots[j], item))
    decreases k
  {
    if k > 0 {
      StackPassFrame(p, item, k - 1);
    }
  }

  /** If units are left after stacking up to k, every same-id slot before k is full. */
  lemma {:induction false} StackPassFull(p: Progress, item: ItemDef, k: nat)
    requires k <= |p.slots|
    ensures var r := StackPass(p, item, k);
      r.remaining > 0 ==>
        forall j :: 0 <= j < k && CanStackWith(r.slots[j], Some(item)) ==> RemainingCapacity(r.slots[j]) <= 0
    decreases k
  {
    if k > 0 {
      StackPassFull(p, item, k - 1);
      StackPassFrame(p, item, k - 1);
    }
  }

  /** With no negative quantities, each unit placed by stacking is a unit taken from what remains. */
  lemma {:induction false} StackPassConserves(p: Progress, item: ItemDef, k: nat)
    requires k <= |p.slots| && NonNegative(p.slots)
    ensures var r := StackPass(p, item, k);
      && NonNegative(r.slots)
      && Units(r.slots, item.id) + r.remaining == Units(p.slots, item.id) + p.remaining
      && forall id :: id != item.id ==> Units(r.slots, id) == Units(p.slots, id)
    decreases k
  {
    if k > 0 {
      StackPassConserves(p, item, k - 1);
      var q := StackPass(p, item, k - 1);
      var i := k - 1;
      if q.remaining > 0 && CanStackWith(q.slots[i], Some(item)) {
        var slot := q.slots[i];
        var canAdd := Min(RemainingCapacity(slot), q.remaining);
        if canAdd > 0 {
          forall id ensures Units(q.slots[i := slot.(quantity := slot.quantity + canAdd)], id)
                            == Units(q.slots, id) - Held(slot, id) + Held(slot.(quantity := slot.quantity + canAdd), id) {
            UnitsUpdate(q.slots, i, slot.(quantity := slot.quantity + canAdd), id);
          }
        }
      }
    }
  }

  lemma {:induction false} FillPassFrame(p: Progress, item: ItemDef, k: nat)
    requires k <= |p.slots|
    ensures var r := FillPass(p, item, k);
      && (p.remaining <= 0 ==> r == p)
      && (p.remaining > 0 ==> 0 <= r.remaining <= p.remaining)
      && (forall j :: k <= j < |p.slots| ==> r.slots[j] == p.slots[j])
      && (forall j :: 0 <= j < |p.slots| && r.slots[j] != p.slots[j] ==> Filled(p.slots[j], r.slots[j], item))
    decreases k
  {
    if k > 0 {
      FillPassFrame(p, item, k - 1);
    }
  }

  /**
   * If units are left after filling up to k, and every same-id slot was full
   * when filling began, then every slot before k is occupied and none of
   * them can take more of the item.
   */
  lemma {:induction false} FillPassFull(p: Progress, item: ItemDef, k: nat)
    requires k <= |p.slots|
    requires p.remaining > 0 ==>
      forall j :: 0 <= j < |p.slots| && CanStackWith(p.slots[j], Some(item)) ==> RemainingCapacity(p.slots[j]) <= 0
    ensures var r := FillPass(p, item, k);
      r.remaining > 0 ==>
        forall j :: 0 <= j < k ==>
          !IsEmpty(r.slots[j]) && (CanStackWith(r.slots[j], Some(item)) ==> RemainingCapacity(r.slots[j]) <= 0)
    decreases k
  {
    if k > 0 {
      FillPassFull(p, item, k - 1);
      FillPassFrame(p, item, k - 1);
    }
  }

  lemma {:induction false} FillPassConserves(p: Progress, item: ItemDef, k: nat)
    requires k <= |p.slots| && NonNegative(p.slots)
    ensures var r := FillPass(p, item, k);
      && NonNegative(r.slots)
      && Units(r.slots, item.id) + r.remaining == Units(p.slots, item.id) + p.remaining
      && forall id :: id != item.id ==> Units(r.slots, id) == Units(p.slots, id)
    decreases k
  {
    if k > 0 {
      FillPassConserves(p, item, k - 1);
      var q := FillPass(p, item, k - 1);
      var i := k - 1;
      if q.remaining > 0 && IsEmpty(q.slots[i]) {
        var x := Slot(Some(item), Min(MaxStack(item), q.remaining));
        forall id ensures Units(q.slots[i := x], id) == Units(q.slots, id) - Held(q.slots[i], id) + Held(x, id) {
          UnitsUpdate(q.slots, i, x, id);
        }
      }
    }
  }

  // ---------------------------------------------------------------------
  // AddItem as a whole
  // ---------------------------------------------------------------------

  /** Without an item or with a non-positive quantity, adding hands the quantity back and changes nothing. */
  lemma AddItemRejects(s: seq<Slot>, item: Option<ItemDef>, quantity: int)
    requires item.None? || quantity <= 0
    ensures AddItemSpec(s, item, quantity) == Progress(s, quantity)
  {
  }

  /**
   * Adding hands back between 0 and all of the quantity, and changes only
   * slots of the same id (topping them up within their limit) and empty
   * slots (which receive at most a full stack of the item).
   */
  lemma AddItemChanges(s: seq<Slot>, item: ItemDef, quantity: int)
    requires quantity > 0
    ensures var r := AddItemSpec(s, Some(item), quantity);
      && 0 <= r.remaining <= quantity
      && forall j :: 0 <= j < |s| && r.slots[j] != s[j] ==>
           Grown(s[j], r.slots[j], item) || Filled(s[j], r.slots[j], item)
  {
    var p := Progress(s, quantity);
    StackPassFrame(p, item, |s|);
    var m := StackPass(p, item, |s|);
    FillPassFrame(m, item, |s|);
  }

  /** A slot holding another item, occupied, is never touched by adding. */
  lemma AddItemSparesOtherItems(s: seq<Slot>, item: ItemDef, quantity: int, j: int)
    requires 0 <= j < |s| && !IsEmpty(s[j]) && s[j].item.value.id != item.id
    ensures AddItemSpec(s, Some(item), quantity).slots[j] == s[j]
  {
    if quantity > 0 {
      AddItemChanges(s, item, quantity);
    }
  }

  /** Exactly the units not handed back are added, and no other id's count changes. */
  lemma AddItemConserves(s: seq<Slot>, item: ItemDef, quantity: int)
    requires NonNegative(s)
    requires quantity > 0
    ensures var r := AddItemSpec(s, Some(item), quantity);
      && NonNegative(r.slots)
      && Units(r.slots, item.id) == Units(s, item.id) + (quantity - r.remaining)
      && forall id :: id != item.id ==> Units(r.slots, id) == Units(s, id)
  {
    var p := Progress(s, quantity);
    StackPassConserves(p, item, |s|);
    FillPassConserves(StackPass(p, item, |s|), item, |s|);
  }

  /** Units are handed back only when no slot is empty and every slot of the same id is full. */
  lemma AddItemLeavesNoRoom(s: seq<Slot>, item: ItemDef, quantity: int)
    requires quantity > 0
    ensures var r := AddItemSpec(s, Some(item), quantity);
      r.remaining > 0 ==>
        forall j :: 0 <= j < |s| ==>
          !IsEmpty(r.slots[j]) && (CanStackWith(r.slots[j], Some(item)) ==> RemainingCapacity(r.slots[j]) <= 0)
  {
    var p := Progress(s, quantity);
    StackPassFull(p, item, |s|);
    FillPassFull(StackPass(p, item, |s|), item, |s|);
  }

  /** Three potions then one more, stack limit 5: the second add tops up slot 0 to 4. */
  lemma AddItemStacksIntoExistingSlot(potion: ItemDef)
    requires potion.maxStackSize == 5
    ensures var once := AddItemSpec(Cleared(5), Some(potion), 3);
            var twice := AddItemSpec(once.slots, Some(potion), 1);
            && once.remaining == 0 && twice.remaining == 0
            && twice.slots[0] == Slot(Some(potion), 4)
  {
    var s := Cleared(5);
    var p1 := Progress(s, 3);
    assert StackPass(p1, potion, 5) == p1 by {
      StackPassIdleWithoutMatch(p1, potion, 5);
    }
    var once := FillPass(p1, potion, 5);
    assert FillPass(p1, potion, 1) == Progress(s[0 := Slot(Some(potion), 3)], 0);
    Inventories.FillPassIdle(p1, potion, 1, 5);
    assert once.slots[0] == Slot(Some(potion), 3);
    var p2 := Progress(once.slots, 1);
    assert StackPass(p2, potion, 1) == Progress(once.slots[0 := Slot(Some(potion), 4)], 0);
    Inventories.StackPassIdle(p2, potion, 1, 5);
  }

  /** Three coins with stack limit 2: slot 0 gets 2 and slot 1 gets 1. */
  lemma AddItemSplitsIntoMultipleSlots(coin: ItemDef)
    requires coin.maxStackSize == 2
    ensures var r := AddItemSpec(Cleared(5), Some(coin), 3);
            && r.remaining == 0
            && r.slots[0] == Slot(Some(coin), 2) && r.slots[1] == Slot(Some(coin), 1)
  {
    var s := Cleared(5);
    var p := Progress(s, 3);
    StackPassIdleWithoutMatch(p, coin, 5);
    assert FillPass(p, coin, 1) == Progress(s[0 := Slot(Some(coin), 2)], 1);
    assert FillPass(p, coin, 2) == Progress(s[0 := Slot(Some(coin), 2)][1 := Slot(Some(coin), 1)], 0);
    Inventories.FillPassIdle(p, coin, 2, 5);
  }

  /** With no slot of the same id, stacking changes nothing. */
  lemma {:induction false} StackPassIdleWithoutMatch(p: Progress, item: ItemDef, k: nat)
    requires k <= |p.slots|
    requires forall j :: 0 <= j < |p.slots| ==> !CanStackWith(p.slots[j], Some(item))
    ensures StackPass(p, item, k) == p
    decreases k
  {
    if k > 0 {
      StackPassIdleWithoutMatch(p, item, k - 1);
    }
  }

  /** With every slot occupied and at or over its limit, stacking changes nothing. */
  lemma {:induction false} StackPassIdleWithoutRoom(p: Progress, item: ItemDef, k: nat)
    requires k <= |p.slots| && !HasRoom(p.slots)
    ensures StackPass(p, item, k) == p
    decreases k
  {
    if k > 0 {
      StackPassIdleWithoutRoom(p, item, k - 1);
      assert !IsEmpty(p.slots[k - 1]) && RemainingCapacity(p.slots[k - 1]) <= 0;
    }
  }

  /** With every slot occupied, filling changes nothing. */
  lemma {:induction false} FillPassIdleWithoutRoom(p: Progress, item: ItemDef, k: nat)
    requires k <= |p.slots| && !HasRoom(p.slots)
    ensures FillPass(p, item, k) == p
    decreases k
  {
    if k > 0 {
      FillPassIdleWithoutRoom(p, item, k - 1);
      assert !IsEmpty(p.slots[k - 1]);
    }
  }

  /** When the inventory reports no free slot, adding takes nothing: every unit is handed back and no slot changes. */
  lemma NoFreeSlotTakesNothing(s: seq<Slot>, item: Option<ItemDef>, quantity: int)
    requires !HasRoom(s)
    ensures AddItemSpec(s, item, quantity) == Progress(s, quantity)
  {
    if item.Some? && quantity > 0 {
      var p := Progress(s, quantity);
      StackPassIdleWithoutRoom(p, item.value, |s|);
      FillPassIdleWithoutRoom(p, item.value, |s|);
    }
  }

  /**
   * The converse fails: a single slot holding one unit of another item
   * counts as free, yet adding a different item takes nothing.
   */
  lemma FreeSlotMayNotFitItem(held: ItemDef, item: ItemDef)
    requires held.id != item.id && held.maxStackSize == 5
    ensures var s := [Slot(Some(held), 1)];
      HasRoom(s) && AddItemSpec(s, Some(item), 1) == Progress(s, 1)
  {
    var s := [Slot(Some(held), 1)];
    assert RemainingCapacity(s[0]) > 0;
    StackPassIdleWithoutMatch(Progress(s, 1), item, 1);
  }

  // ---------------------------------------------------------------------
  // RemoveAt, Swap, Move
  // ---------------------------------------------------------------------

  /**
   * Removal succeeds exactly on a valid, occupied slot and a positive
   * quantity; it then takes min(quantity, stack) units of that slot's id
   * and no others, and otherwise changes nothing.
   */
  lemma RemoveAtOutcome(s: seq<Slot>, index: int, quantity: int)
    ensures var r := RemoveAtSpec(s, index, quantity);
      && (r.1 <==> 0 <= index < |s| && quantity > 0 && !IsEmpty(s[index]))
      && (!r.1 ==> r.0 == s)
      && (r.1 ==>
            var id := s[index].item.value.id;
            && Units(r.0, id) == Units(s, id) - Min(quantity, s[index].quantity)
            && (forall other :: other != id ==> Units(r.0, other) == Units(s, other))
            && (forall j :: 0 <= j < |s| && j != index ==> r.0[j] == s[j]))
  {
    var r := RemoveAtSpec(s, index, quantity);
    if r.1 {
      forall id ensures Units(r.0, id) == Units(s, id) - Held(s[index], id) + Held(r.0[index], id) {
        UnitsUpdate(s, index, r.0[index], id);
      }
    }
  }

  /** Swapping twice with the same indices restores the slots. */
  lemma SwapInvolution(s: seq<Slot>, a: int, b: int)
    ensures SwapSpec(SwapSpec(s, a, b), a, b) == s
  {
  }

  /** Swapping exchanges the two slots and keeps the same stacks overall. */
  lemma SwapPermutes(s: seq<Slot>, a: int, b: int)
    requires 0 <= a < |s| && 0 <= b < |s|
    ensures var r := SwapSpec(s, a, b);
      && r[a] == s[b] && r[b] == s[a]
      && (forall j :: 0 <= j < |s| && j != a && j != b ==> r[j] == s[j])
      && multiset(r) == multiset(s)
  {
    if a != b {
      var r := SwapSpec(s, a, b);
      assert s[a := s[b]] == s[..a] + [s[b]] + s[a + 1..];
      calc {
        multiset(s[a := s[b]]);
        multiset(s) - multiset{s[a]} + multiset{s[b]};
      }
      calc {
        multiset(r);
        multiset(s[a := s[b]]) - multiset{s[a := s[b]][b]} + multiset{s[a]};
      }
    }
  }

  /** Moving never changes how many units of any id the inventory holds. */
  lemma MoveConserves(s: seq<Slot>, from: int, to: int, id: string)
    ensures Units(MoveSpec(s, from, to), id) == Units(s, id)
  {
    if 0 <= from < |s| && 0 <= to < |s| && from != to && !IsEmpty(s[from]) {
      var f := s[from];
      var t := s[to];
      if IsEmpty(t) {
        var m := s[to := Slot(f.item, f.quantity)];
        UnitsUpdate(s, to, Slot(f.item, f.quantity), id);
        UnitsUpdate(m, from, InventorySlots.Clear(f), id);
      } else if CanStackWith(t, f.item) && Min(f.quantity, RemainingCapacity(t)) > 0 {
        var moveQty := Min(f.quantity, RemainingCapacity(t));
        var left := f.quantity - moveQty;
        var m := s[to := t.(quantity := t.quantity + moveQty)];
        UnitsUpdate(s, to, t.(quantity := t.quantity + moveQty), id);
        UnitsUpdate(m, from, if left <= 0 then InventorySlots.Clear(f) else f.(quantity := left), id);
      } else {
        UnitsSwap(s, from, to, id);
      }
    }
  }

  /** Moving onto a stack of the same id never pushes it past its limit unless it was already past it. */
  lemma MoveRespectsLimit(s: seq<Slot>, from: int, to: int)
    requires 0 <= from < |s| && 0 <= to < |s| && from != to
    requires !IsEmpty(s[from]) && !IsEmpty(s[to]) && CanStackWith(s[to], s[from].item)
    requires s[to].quantity < MaxStack(s[to].item.value)
    ensures var r := MoveSpec(s, from, to);
      && r[to].item == s[to].item
      && s[to].quantity < r[to].quantity <= MaxStack(s[to].item.value)
      && Units(r, s[from].item.value.id) == Units(s, s[from].item.value.id)
  {
    MoveConserves(s, from, to, s[from].item.value.id);
  }

  /** Moving onto a different item swaps the two stacks. */
  lemma MoveSwapsDifferentItems(s: seq<Slot>, from: int, to: int)
    requires 0 <= from < |s| && 0 <= to < |s| && from != to
    requires !IsEmpty(s[from]) && !IsEmpty(s[to]) && s[to].item.value.id != s[from].item.value.id
    ensures MoveSpec(s, from, to) == SwapSpec(s, from, to)
  {
  }

  /** Items a and b, one of each added to five empty slots, then moved from slot 0 to slot 1: they trade places. */
  lemma MoveSwapsWhenDifferentItems(a: ItemDef, b: ItemDef)
    requires a.id != b.id && a.maxStackSize == 1 && b.maxStackSize == 1
    ensures var s1 := AddItemSpec(Cleared(5), Some(a), 1).slots;
            var s2 := AddItemSpec(s1, Some(b), 1).slots;
            var r := MoveSpec(s2, 0, 1);
            r[0] == Slot(Some(b), 1) && r[1] == Slot(Some(a), 1)
  {
    var s := Cleared(5);
    var p := Progress(s, 1);
    StackPassIdleWithoutMatch(p, a, 5);
    assert FillPass(p, a, 1) == Progress(s[0 := Slot(Some(a), 1)], 0);
    Inventories.FillPassIdle(p, a, 1, 5);
    var s1 := s[0 := Slot(Some(a), 1)];
    var p1 := Progress(s1, 1);
    StackPassIdleWithoutMatch(p1, b, 5);
    assert FillPass(p1, b, 1) == p1;
    assert FillPass(p1, b, 2) == Progress(s1[1 := Slot(Some(b), 1)], 0);
    Inventories.FillPassIdle(p1, b, 2, 5);
  }

  // ---------------------------------------------------------------------
  // Sorting
  // ---------------------------------------------------------------------

  lemma {:induction false} OccupiedOfOccupied(s: seq<Slot>)
    requires forall j :: 0 <= j < |s| ==> !IsEmpty(s[j])
    ensures Occupied(s) == s
    decreases |s|
  {
    if |s| > 0 {
      OccupiedOfOccupied(s[..|s| - 1]);
    }
  }

  lemma {:induction false} OccupiedIgnoresEmptyTail(s: seq<Slot>, n: nat)
    ensures Occupied(s + Cleared(n)) == Occupied(s)
    decreases n
  {
    if n > 0 {
      var x := s + Cleared(n);
      assert x[..|x| - 1] == s + Cleared(n - 1);
      assert IsEmpty(x[|x| - 1]);
      OccupiedIgnoresEmptyTail(s, n - 1);
    } else {
      assert s + Cleared(n) == s;
    }
  }

  /**
   * Sorting moves the occupied stacks to the front, ordered by the
   * comparison, empties every other slot, and keeps exactly the same
   * occupied stacks.
   */
  lemma SortCompactsAndPermutes(s: seq<Slot>, r: seq<Slot>, le: (Slot, Slot) -> bool)
    requires IsSortOf(s, r, le)
    ensures var n := |Occupied(s)|;
      && (forall j :: 0 <= j < n ==> !IsEmpty(r[j]))
      && (forall j :: n <= j < |r| ==> r[j] == EmptySlot)
      && SortedBy(r[..n], le)
      && multiset(Occupied(r)) == multiset(Occupied(s))
  {
    var n := |Occupied(s)|;
    var front := r[..n];
    assert r == front + r[n..];
    PermutedAreOccupied(Occupied(s), front);
    OccupiedOfCompacted(front, |s| - n);
    forall j | 0 <= j < n ensures !IsEmpty(r[j]) {
      assert r[j] == front[j];
    }
  }

  /** Occupied stacks followed by empty slots: the occupied ones are exactly the front. */
  lemma OccupiedOfCompacted(front: seq<Slot>, k: nat)
    requires forall j :: 0 <= j < |front| ==> !IsEmpty(front[j])
    ensures Occupied(front + Cleared(k)) == front
  {
    OccupiedIgnoresEmptyTail(front, k);
    OccupiedOfOccupied(front);
  }

  /** A rearrangement of occupied stacks, as the list sort leaves them, holds occupied stacks only. */
  lemma PermutedAreOccupied(occ: seq<Slot>, p: seq<Slot>)
    requires forall j :: 0 <= j < |occ| ==> !IsEmpty(occ[j])
    requires multiset(p) == multiset(occ)
    ensures forall j :: 0 <= j < |p| ==> !IsEmpty(p[j])
  {
    forall j | 0 <= j < |p| ensures !IsEmpty(p[j]) {
      assert p[j] in multiset(occ);
    }
  }

  /** Sorting never changes how many slots are occupied. */
  lemma SortKeepsOccupiedCount(s: seq<Slot>, r: seq<Slot>, le: (Slot, Slot) -> bool)
    requires IsSortOf(s, r, le)
    ensures |Occupied(r)| == |Occupied(s)|
  {
    SortCompactsAndPermutes(s, r, le);
    assert |multiset(Occupied(r))| == |multiset(Occupied(s))|;
  }

  // ---------------------------------------------------------------------
  // No item lingers in an empty slot
  // ---------------------------------------------------------------------

  lemma AddItemKeepsCanonical(s: seq<Slot>, item: Option<ItemDef>, quantity: int)
    requires Canonical(s)
    ensures Canonical(AddItemSpec(s, item, quantity).slots)
  {
    if item.Some? && quantity > 0 {
      AddItemChanges(s, item.value, quantity);
    }
  }

  lemma RemoveAtKeepsCanonical(s: seq<Slot>, index: int, quantity: int)
    requires Canonical(s)
    ensures Canonical(RemoveAtSpec(s, index, quantity).0)
  {
  }

  lemma SwapKeepsCanonical(s: seq<Slot>, a: int, b: int)
    requires Canonical(s)
    ensures Canonical(SwapSpec(s, a, b))
  {
  }

  lemma MoveKeepsCanonical(s: seq<Slot>, from: int, to: int)
    requires Canonical(s)
    ensures Canonical(MoveSpec(s, from, to))
  {
    SwapKeepsCanonical(s, from, to);
  }

  /** Whatever the slots held before, sorting leaves no item in an empty slot. */
  lemma SortKeepsCanonical(s: seq<Slot>, r: seq<Slot>, le: (Slot, Slot) -> bool)
    requires IsSortOf(s, r, le)
    ensures Canonical(r)
  {
    SortCompactsAndPermutes(s, r, le);
  }
}
