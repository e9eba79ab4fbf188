/**
  The `Inventory` object of inventory.js: a grid of 30 slots, each holding
  at most one kind of item with a quantity, and the state of a
  drag-and-drop between two slots. The DOM, the CSS classes and the
  items' `use` closures are left out; the value of `Math.random()` and the
  answer of the purchase callback are parameters of `BuyItem`.
*/
module Inventory {
  import opened Wrappers

  /** The number of slots `initialize` creates, whatever maxSlots says. */
  const SlotCount: nat := 30

  datatype Item = Item(id: string, name: string, cost: nat)

  /** The shop's catalogue, in the order `buyItem` indexes it. */
  const PossibleItems: seq<Item> := [
    Item("lucky_clover", "Lucky Clover", 100),
    Item("star", "Star Power", 100),
    Item("diamond", "Diamond", 100),
    Item("potion", "Magic Potion", 100),
    Item("crystal_ball", "Crystal Ball", 100)
  ]

  /** A slot of the grid: its position, the item it holds (`null` when empty) and how many. */
  datatype Slot = Slot(id: nat, item: Option<Item>, quantity: nat)

  /** The slot `initialize` creates at position i. */
  function EmptySlot(i: nat): Slot
  {
    Slot(i, None, 0)
  }

  /** `slots.find(slot => !slot.item)`: the position of the first slot without an item, or -1. */
  function FirstEmpty(s: seq<Slot>): (i: int)
    ensures -1 <= i < |s|
    ensures 0 <= i ==> s[i].item.None?
    ensures 0 <= i ==> forall k :: 0 <= k < i ==> s[k].item.Some?
    ensures i == -1 <==> forall k :: 0 <= k < |s| ==> s[k].item.Some?
  {
    if s == [] then -1
    else if s[0].item.None? then 0
    else
      var j := FirstEmpty(s[1..]);
      if j == -1 then -1 else j + 1
  }

  /** Slot i now holds one of `item`; every other slot, and the position of slot i, are unchanged. */
  function Stocked(s: seq<Slot>, i: nat, item: Item): (r: seq<Slot>)
    requires i < |s|
    ensures |r| == |s| && r[i] == Slot(s[i].id, Some(item), 1)
    ensures forall k :: 0 <= k < |s| && k != i ==> r[k] == s[k]
  {
    s[i := s[i].(item := Some(item), quantity := 1)]
  }

  /**
    The exchange of `handleDrop`: the target slot takes the item and
    quantity of the source slot and the source slot those the target had;
    both keep their positions and no other slot changes.
  */
  function Swapped(s: seq<Slot>, source: nat, target: nat): (r: seq<Slot>)
    requires source < |s| && target < |s|
    ensures |r| == |s|
    ensures r[target].item == s[source].item && r[target].quantity == s[source].quantity
    ensures r[source].item == s[target].item && r[source].quantity == s[target].quantity
    ensures r[source].id == s[source].id && r[target].id == s[target].id
    ensures forall k :: 0 <= k < |s| && k != source && k != target ==> r[k] == s[k]
  {
    var tempItem, tempQuantity := s[target].item, s[target].quantity;
    var s1 := s[target := s[target].(item := s[source].item, quantity := s[source].quantity)];
    s1[source := s1[source].(item := tempItem, quantity := tempQuantity)]
  }

  /** What the slots hold, position by position, without their ids. */
  function Contents(s: seq<Slot>): (c: seq<(Option<Item>, nat)>)
    ensures |c| == |s| && forall k :: 0 <= k < |s| ==> c[k] == (s[k].item, s[k].quantity)
  {
    seq(|s|, k requires 0 <= k < |s| => (s[k].item, s[k].quantity))
  }

  /** Swapping the same two slots twice gives back the original slots. */
  lemma SwapTwice(s: seq<Slot>, source: nat, target: nat)
    requires source < |s| && target < |s|
    ensures Swapped(Swapped(s, source, target), source, target) == s
  {
    var r := Swapped(Swapped(s, source, target), source, target);
    assert forall k :: 0 <= k < |s| ==> r[k] == s[k];
  }

  /** A swap only moves contents between slots: the multiset of (item, quantity) pairs is unchanged. */
  lemma SwapPermutes(s: seq<Slot>, source: nat, target: nat)
    requires source < |s| && target < |s|
    ensures multiset(Contents(Swapped(s, source, target))) == multiset(Contents(s))
  {
    var c := Contents(s);
    var d := Contents(Swapped(s, source, target));
    assert d == c[target := c[source]][source := c[target]];
  }

  /** The number of slots that hold an item. */
  function Occupied(s: seq<Slot>): nat
  {
    if s == [] then 0 else Occupied(s[..|s| - 1]) + (if s[|s| - 1].item.Some? then 1 else 0)
  }

  /** Stocking an empty slot raises the number of occupied slots by exactly one. */
  lemma {:induction false} StockedOccupies(s: seq<Slot>, i: nat, item: Item)
    requires i < |s| && s[i].item.None?
    ensures Occupied(Stocked(s, i, item)) == Occupied(s) + 1
    decreases |s|
  {
    var n := |s| - 1;
    var r := Stocked(s, i, item);
    if i < n {
      assert r[..n] == Stocked(s[..n], i, item);
      StockedOccupies(s[..n], i, item);
    } else {
      assert r[..n] == s[..n];
    }
  }

  /** When every slot holds an item there is no empty slot, however many slots there are. */
  lemma {:induction false} FullMeansNoEmpty(s: seq<Slot>)
    requires Occupied(s) == |s|
    ensures FirstEmpty(s) == -1
    decreases |s|
  {
    if s != [] {
      var n := |s| - 1;
      OccupiedBound(s[..n]);
      FullMeansNoEmpty(s[..n]);
      forall k | 0 <= k < |s|
        ensures s[k].item.Some?
      {
        if k < n {
          assert s[..n][k] == s[k];
        }
      }
    }
  }

  lemma {:induction false} OccupiedBound(s: seq<Slot>)
    ensures Occupied(s) <= |s|
    decreases |s|
  {
    if s != [] {
      OccupiedBound(s[..|s| - 1]);
    }
  }

  /** `Math.floor(Math.random() * possibleItems.length)` for a draw in [0, 1): a valid catalogue index. */
  function ItemIndex(draw: real): (i: nat)
    requires 0.0 <= draw < 1.0
    ensures i < |PossibleItems|
    ensures (i as real) <= draw * (|PossibleItems| as real) < (i as real) + 1.0
  {
    (draw * (|PossibleItems| as real)).Floor
  }

  class Inventory {
    var slots: array<Slot>
    /** Stored by the constructor and never read. */
    var maxSlots: nat
    var isDragging: bool
    var draggedSlot: Option<nat>
    /** Whether `onPurchaseAttempt` is set. */
    var hasPurchaseCallback: bool

    /**
      The grid is empty (before a successful `initialize`) or has 30 slots;
      slot i sits at position i; a slot has quantity 0 exactly when it holds
      no item; a drag is in progress exactly when a dragged slot is
      recorded, and that slot is on the grid.
    */
    ghost predicate Valid()
      reads this, slots
    {
      (slots.Length == 0 || slots.Length == SlotCount)
      && (forall i :: 0 <= i < slots.Length ==> slots[i].id == i && (slots[i].item.None? <==> slots[i].quantity == 0))
      && (isDragging <==> draggedSlot.Some?)
      && (draggedSlot.Some? ==> draggedSlot.value < slots.Length)
    }

    /**
      A new inventory: no drag in progress, no purchase callback, and, when
      the grid element exists, 30 empty slots (maxSlots plays no part).
    */
    constructor (maxSlots: nat, gridPresent: bool)
      ensures Valid() && fresh(slots)
      ensures this.maxSlots == maxSlots && !isDragging && draggedSlot == None && !hasPurchaseCallback
      ensures gridPresent ==> slots.Length == SlotCount && forall i :: 0 <= i < SlotCount ==> slots[i] == EmptySlot(i)
      ensures !gridPresent ==> slots.Length == 0
    {
      slots := new Slot[0];
      this.maxSlots := maxSlots;
      isDragging := false;
      draggedSlot := None;
      hasPurchaseCallback := false;
      new;
      Initialize(gridPresent);
    }

    /** `setPurchaseCallback`: only whether a callback is set is modelled. */
    method SetPurchaseCallback(present: bool)
      modifies this`hasPurchaseCallback
      ensures hasPurchaseCallback == present
    {
      hasPurchaseCallback := present;
    }

    /**
      Without the grid element nothing changes; otherwise the slots are
      replaced by 30 new empty slots, slot i with id i.
    */
    method Initialize(gridPresent: bool)
      requires Valid()
      modifies this`slots
      ensures Valid()
      ensures gridPresent ==> fresh(slots) && slots.Length == SlotCount
      ensures gridPresent ==> forall i :: 0 <= i < SlotCount ==> slots[i] == EmptySlot(i)
      ensures !gridPresent ==> slots == old(slots)
    {
      if !gridPresent {
        return;
      }
      var created := new Slot[SlotCount];
      for i := 0 to SlotCount
        invariant forall j :: 0 <= j < i ==> created[j] == EmptySlot(j)
      {
        created[i] := EmptySlot(i);
      }
      slots := created;
    }

    /** A drag can only start from a slot that holds an item. */
    method HandleDragStart(slotId: nat)
      requires Valid() && slotId < slots.Length
      modifies this`isDragging, this`draggedSlot
      ensures Valid()
      ensures slots[slotId].item.Some? ==> isDragging && draggedSlot == Some(slotId)
      ensures slots[slotId].item.None? ==> isDragging == old(isDragging) && draggedSlot == old(draggedSlot)
    {
      var slot := slots[slotId];
      if slot.item.None? {
        return;
      }
      isDragging := true;
      draggedSlot := Some(slotId);
    }

    /** The end of any drag clears the drag state. */
    method HandleDragEnd()
      requires Valid()
      modifies this`isDragging, this`draggedSlot
      ensures Valid()
      ensures !isDragging && draggedSlot == None
    {
      isDragging := false;
      draggedSlot := None;
    }

    /**
      A drop on a slot other than the dragged one exchanges the two slots'
      items and quantities; without a drag, or on the dragged slot itself,
      no slot changes. The drag state is left for `HandleDragEnd`.
    */
    method HandleDrop(targetSlotId: nat)
      requires Valid() && targetSlotId < slots.Length
      modifies slots
      ensures Valid()
      ensures slots[..] == if isDragging && draggedSlot != Some(targetSlotId)
        then Swapped(old(slots[..]), draggedSlot.value, targetSlotId)
        else old(slots[..])
    {
      if !isDragging || draggedSlot == Some(targetSlotId) {
        return;
      }
      var source := draggedSlot.value;
      var sourceSlot, targetSlot := slots[source], slots[targetSlotId];
      var tempItem, tempQuantity := targetSlot.item, targetSlot.quantity;
      slots[targetSlotId] := targetSlot.(item := sourceSlot.item, quantity := sourceSlot.quantity);
      slots[source] := sourceSlot.(item := tempItem, quantity := tempQuantity);
    }

    /** The search of `addItem`: the position of the first slot without an item, or -1. */
    method FindEmptySlot() returns (i: int)
      ensures i == FirstEmpty(slots[..])
    {
      i := 0;
      while i < slots.Length && slots[i].item.Some?
        invariant 0 <= i <= slots.Length
        invariant forall k :: 0 <= k < i ==> slots[k].item.Some?
      {
        i := i + 1;
      }
      if i == slots.Length {
        i := -1;
      }
    }

    /**
      Puts one of `item` in the first empty slot and reports success; with
      every slot taken, reports failure and changes nothing.
    */
    method AddItem(item: Item) returns (added: bool)
      requires Valid()
      modifies slots
      ensures Valid()
      ensures added <==> exists k :: 0 <= k < slots.Length && old(slots[k]).item.None?
      ensures slots[..] == if added then Stocked(old(slots[..]), FirstEmpty(old(slots[..])), item) else old(slots[..])
    {
      var i := FindEmptySlot();
      if i >= 0 {
        slots[i] := slots[i].(item := Some(item), quantity := 1);
        added := true;
      } else {
        added := false;
      }
    }

    /**
      Picks the catalogue item at floor(draw * 5); when a purchase callback
      is set and `approved` is its answer, a successful purchase adds the
      item with `AddItem`. The purchase can succeed while no slot is free,
      and then no slot changes.
    */
    method BuyItem(draw: real, approved: bool) returns (item: Item, purchased: bool, added: bool)
      requires Valid() && 0.0 <= draw < 1.0
      modifies slots
      ensures Valid()
      ensures item == PossibleItems[ItemIndex(draw)]
      ensures purchased == (hasPurchaseCallback && approved)
      ensures added <==> purchased && exists k :: 0 <= k < slots.Length && old(slots[k]).item.None?
      ensures slots[..] == if added then Stocked(old(slots[..]), FirstEmpty(old(slots[..])), item) else old(slots[..])
    {
      var randomIndex := ItemIndex(draw);
      item := PossibleItems[randomIndex];
      purchased := false;
      added := false;
      if hasPurchaseCallback {
        purchased := approved;
        if purchased {
          added := AddItem(item);
        }
      }
    }
  }
}
