/**
 * Operations of ItemUtils on inventory contents, an array of slots each
 * holding a stack or null: counting, adding, removing and converting items.
 */
module Inventory {
  import opened Wrappers
  import opened Values
  import opened Items

  type Slots = seq<Option<ItemStack>>

  // ---------------------------------------------------------------------
  // Amount bookkeeping

  /** The number of items in all non-empty slots. */
  function TotalAmount(s: Slots): nat {
    if |s| == 0 then 0 else TotalAmount(s[..|s| - 1]) + ItemStackAmount(s[|s| - 1])
  }

  /** A non-empty slot whose stack the predicate accepts. */
  predicate SlotMatches(slot: Option<ItemStack>, accepts: ItemStack -> bool) {
    !IsEmpty(slot) && accepts(slot.value)
  }

  /** similarItems: accepts the stacks similar to the given one. */
  function SimilarItems(item: ItemStack): (accepts: ItemStack -> bool)
    ensures forall x :: accepts(x) <==> Similar(item, Some(x))
  {
    x => Similar(item, Some(x))
  }

  /** The number of items in the non-empty slots the predicate accepts. */
  function MatchingAmount(s: Slots, accepts: ItemStack -> bool): nat {
    if |s| == 0 then 0
    else
      var last := if SlotMatches(s[|s| - 1], accepts) then s[|s| - 1].value.amount as nat else 0;
      MatchingAmount(s[..|s| - 1], accepts) + last
  }

  /** Replacing one slot changes the total by the difference of the two slots' amounts. */
  lemma {:induction false} TotalAmountUpdate(s: Slots, i: nat, v: Option<ItemStack>)
    requires i < |s|
    ensures TotalAmount(s[i := v]) == TotalAmount(s) - ItemStackAmount(s[i]) + ItemStackAmount(v)
    decreases |s|
  {
    var t := s[i := v];
    if i == |s| - 1 {
      assert t[..|t| - 1] == s[..|s| - 1];
    } else {
      assert t[..|t| - 1] == s[..|s| - 1][i := v];
      TotalAmountUpdate(s[..|s| - 1], i, v);
    }
  }

  /** The matching amount of a prefix never exceeds that of the whole contents. */
  lemma {:induction false} MatchingAmountPrefix(s: Slots, accepts: ItemStack -> bool, k: nat)
    requires k <= |s|
    ensures MatchingAmount(s[..k], accepts) <= MatchingAmount(s, accepts)
    decreases |s|
  {
    if k < |s| {
      assert s[..|s| - 1][..k] == s[..k];
      MatchingAmountPrefix(s[..|s| - 1], accepts, k);
    } else {
      assert s[..k] == s;
    }
  }

  /** Every matching slot contributes its whole amount. */
  lemma MatchingAmountCountsSlot(s: Slots, accepts: ItemStack -> bool, i: nat)
    requires i < |s| && SlotMatches(s[i], accepts)
    ensures MatchingAmount(s, accepts) >= s[i].value.amount
  {
    MatchingAmountPrefix(s, accepts, i + 1);
    assert s[..i + 1][..i] == s[..i];
  }

  /** Without any matching slot the matching amount is zero. */
  lemma {:induction false} NoMatchingSlots(s: Slots, accepts: ItemStack -> bool)
    requires forall k :: 0 <= k < |s| ==> !SlotMatches(s[k], accepts)
    ensures MatchingAmount(s, accepts) == 0
    decreases |s|
  {
    if |s| > 0 {
      NoMatchingSlots(s[..|s| - 1], accepts);
    }
  }

  // ---------------------------------------------------------------------
  // containsAtLeast

  /**
   * containsAtLeast: true iff the requested amount is not positive, or the
   * contents exist and their matching stacks hold at least that many items.
   */
  method ContainsAtLeast(contents: array?<Option<ItemStack>>, accepts: ItemStack -> bool, amount: int32)
    returns (r: bool)
    ensures r <==> amount <= 0 || (contents != null && MatchingAmount(contents[..], accepts) >= amount)
  {
    if amount <= 0 {
      return true;
    }
    if contents == null {
      return false;
    }
    var remaining: int := amount;
    var i := 0;
    while i < contents.Length
      invariant 0 <= i <= contents.Length
      invariant remaining == amount - MatchingAmount(contents[..i], accepts)
      invariant remaining > 0
    {
      var itemStack := contents[i];
      assert contents[..i + 1][..i] == contents[..i];
      if !IsEmpty(itemStack) && accepts(itemStack.value) {
        remaining := remaining - itemStack.value.amount;
        if remaining <= 0 {
          MatchingAmountPrefix(contents[..], accepts, i + 1);
          assert contents[..][..i + 1] == contents[..i + 1];
          return true;
        }
      }
      i := i + 1;
    }
    assert contents[..i] == contents[..];
    return false;
  }

  // ---------------------------------------------------------------------
  // addItems

  /** A non-empty slot, below the max stack size, holding a stack similar to the item. */
  predicate PartiallyFilled(slot: Option<ItemStack>, item: ItemStack) {
    !IsEmpty(slot) && slot.value.amount < item.itemType.maxStackSize && Similar(item, slot)
  }

  /** The item with the given amount (item.copy() followed by setAmount). */
  function StackOf(item: ItemStack, amount: int32): ItemStack {
    item.(amount := amount)
  }

  /**
   * The changes addItems may make to one slot: none; an empty slot receives
   * a copy of the item with 1..max items; or a partial similar stack is
   * raised to at most max.
   */
  predicate AddedTo(before: Option<ItemStack>, after: Option<ItemStack>, item: ItemStack) {
    var max := item.itemType.maxStackSize;
    after == before ||
    (IsEmpty(before) && after.Some? && after.value == StackOf(item, after.value.amount) &&
      1 <= after.value.amount <= max) ||
    (PartiallyFilled(before, item) && after.Some? && after.value == before.value.(amount := after.value.amount) &&
      before.value.amount < after.value.amount <= max)
  }

  /** Every slot changed only as addItems may change it. */
  predicate AddedToEach(before: Slots, after: Slots, item: ItemStack) {
    |after| == |before| && forall k :: 0 <= k < |before| ==> AddedTo(before[k], after[k], item)
  }

  /** The empty slots are unchanged. */
  predicate KeepsEmptySlots(before: Slots, after: Slots) {
    |after| == |before| && forall k :: 0 <= k < |before| && IsEmpty(before[k]) ==> after[k] == before[k]
  }

  /** The slot is unchanged, or it was empty and now holds a copy of the item with 1..max items. */
  predicate FilledInto(before: Option<ItemStack>, after: Option<ItemStack>, item: ItemStack) {
    after == before ||
    (IsEmpty(before) && after.Some? && after.value == StackOf(item, after.value.amount) &&
     1 <= after.value.amount <= item.itemType.maxStackSize)
  }

  /** Only empty slots changed, each into a stack of the item. */
  predicate FillsEmptySlots(before: Slots, after: Slots, item: ItemStack) {
    |after| == |before| && forall k :: 0 <= k < |before| ==> FilledInto(before[k], after[k], item)
  }

  /**
   * Filling one partial stack of slotAmount items with amount more items,
   * in unbounded arithmetic: the new slot amount and what is left over.
   */
  function FillStep(slotAmount: int32, amount: int32, max: StackSize): (r: (int32, int32))
    requires 0 < slotAmount < max && amount > 0
    ensures r.0 + r.1 == slotAmount + amount
    ensures slotAmount < r.0 <= max && 0 <= r.1 < amount
    ensures r.1 == 0 <==> amount <= max - slotAmount
    ensures r.1 > 0 ==> r.0 == max
  {
    if amount <= max - slotAmount then (slotAmount + amount, 0)
    else (max, amount - (max - slotAmount))
  }

  /**
   * The same step as the source writes it: the sum slotAmount + amount is a
   * Java int and wraps around before it is compared with the max stack size.
   */
  function FillStepAsWritten(slotAmount: int32, amount: int32, max: StackSize): (r: (int32, int32))
    requires 0 < slotAmount < max && amount > 0
    ensures slotAmount + amount <= MAX_INT ==> r == FillStep(slotAmount, amount, max)
  {
    var newAmount := Wrap32(slotAmount + amount);
    if newAmount <= max then (newAmount, 0)
    else (max, amount - (max - slotAmount))
  }

  /**
   * Adding Integer.MAX_VALUE items onto a partial stack of one: the wrapped
   * sum is negative, so the source stores a negative amount (emptying the
   * slot) and reports that everything was added.
   */
  lemma FillStepAsWrittenLosesItems()
    ensures var r := FillStepAsWritten(1, MAX_INT, 64);
            r == (MIN_INT, 0) && r.0 + r.1 != 1 + MAX_INT && r.0 <= 0
  {
  }

  /** The slot raised to the max stack size if it is a partial similar stack, otherwise unchanged. */
  function ToppedUp(slot: Option<ItemStack>, item: ItemStack): Option<ItemStack> {
    if PartiallyFilled(slot, item) then Some(slot.value.(amount := item.itemType.maxStackSize)) else slot
  }

  /** The slot given a full stack of the item if it is empty, otherwise unchanged. */
  function Filled(slot: Option<ItemStack>, item: ItemStack): Option<ItemStack> {
    if IsEmpty(slot) then Some(StackOf(item, item.itemType.maxStackSize)) else slot
  }

  /** The items a slot can still take in the first phase of addItems. */
  function Room(slot: Option<ItemStack>, item: ItemStack): nat {
    if PartiallyFilled(slot, item) then item.itemType.maxStackSize - slot.value.amount else 0
  }

  /** The items the partial similar stacks of the slots can still take. */
  function TopUpRoom(s: Slots, item: ItemStack): nat {
    if |s| == 0 then 0 else TopUpRoom(s[..|s| - 1], item) + Room(s[|s| - 1], item)
  }

  /** The items the empty slots can take: a full stack each. */
  function EmptyRoom(s: Slots, item: ItemStack): nat {
    if |s| == 0 then 0
    else
      var last := if IsEmpty(s[|s| - 1]) then item.itemType.maxStackSize as nat else 0;
      EmptyRoom(s[..|s| - 1], item) + last
  }

  /** Every partial similar stack of the slots topped up. */
  function AllToppedUp(s: Slots, item: ItemStack): (r: Slots)
    ensures |r| == |s| && forall k :: 0 <= k < |s| ==> r[k] == ToppedUp(s[k], item)
  {
    seq(|s|, k requires 0 <= k < |s| => ToppedUp(s[k], item))
  }

  /** The partial similar stack at p is where the first phase places the last of amount items. */
  predicate LastToppedUpSlot(before: Slots, item: ItemStack, amount: int, p: int) {
    0 <= p < |before| && PartiallyFilled(before[p], item) &&
    TopUpRoom(before[..p], item) < amount <= TopUpRoom(before[..p], item) + Room(before[p], item)
  }

  /** Every empty slot given a full stack of the item. */
  function AllFilled(s: Slots, item: ItemStack): (r: Slots)
    ensures |r| == |s| && forall k :: 0 <= k < |s| ==> r[k] == Filled(s[k], item)
  {
    seq(|s|, k requires 0 <= k < |s| => Filled(s[k], item))
  }

  /**
   * The slots after the first phase of addItems placed all amount items,
   * the last at slot p: that slot took the rest, the partial similar stacks
   * before it were topped up, and every other slot is unchanged.
   */
  predicate ToppedUpAt(before: Slots, after: Slots, item: ItemStack, amount: int, p: int) {
    LastToppedUpSlot(before, item, amount, p) && |after| == |before| &&
    after[p] == Some(before[p].value.(amount := before[p].value.amount + amount - TopUpRoom(before[..p], item))) &&
    (forall k :: 0 <= k < p ==> after[k] == ToppedUp(before[k], item)) &&
    (forall k :: p < k < |before| ==> after[k] == before[k])
  }

  /** The slots after the first phase of addItems placed all amount items. */
  predicate ToppedUpUntil(before: Slots, after: Slots, item: ItemStack, amount: int) {
    exists p :: 0 <= p < |before| && ToppedUpAt(before, after, item, amount, p)
  }

  /** The empty slot at p is where the second phase places the last of amount items. */
  predicate LastFilledSlot(before: Slots, item: ItemStack, amount: int, p: int) {
    0 <= p < |before| && IsEmpty(before[p]) &&
    EmptyRoom(before[..p], item) < amount <= EmptyRoom(before[..p], item) + item.itemType.maxStackSize
  }

  /**
   * The slots after the second phase of addItems placed all amount items,
   * the last at slot p: that empty slot took the rest, the empty slots
   * before it received full stacks, and every other slot is unchanged.
   */
  predicate FilledAt(before: Slots, after: Slots, item: ItemStack, amount: int, p: int) {
    LastFilledSlot(before, item, amount, p) && |after| == |before| &&
    after[p] == Some(StackOf(item, amount - EmptyRoom(before[..p], item))) &&
    (forall k :: 0 <= k < p ==> after[k] == Filled(before[k], item)) &&
    (forall k :: p < k < |before| ==> after[k] == before[k])
  }

  /** The slots after the second phase of addItems placed all amount items. */
  predicate FilledUntil(before: Slots, after: Slots, item: ItemStack, amount: int) {
    exists p :: 0 <= p < |before| && FilledAt(before, after, item, amount, p)
  }

  /** Extending a prefix by one slot adds that slot's room. */
  lemma TopUpRoomStep(s: Slots, item: ItemStack, i: nat)
    requires i < |s|
    ensures TopUpRoom(s[..i + 1], item) == TopUpRoom(s[..i], item) + Room(s[i], item)
  {
    assert s[..i + 1][..i] == s[..i];
  }

  /** Extending a prefix by an empty slot adds a full stack of room. */
  lemma EmptyRoomStep(s: Slots, item: ItemStack, i: nat)
    requires i < |s|
    ensures EmptyRoom(s[..i + 1], item) == EmptyRoom(s[..i], item) + if IsEmpty(s[i]) then item.itemType.maxStackSize as nat else 0
  {
    assert s[..i + 1][..i] == s[..i];
  }

  /** The room of a prefix never exceeds the room of the whole contents. */
  lemma {:induction false} TopUpRoomPrefix(s: Slots, item: ItemStack, k: nat)
    requires k <= |s|
    ensures TopUpRoom(s[..k], item) <= TopUpRoom(s, item)
    decreases |s|
  {
    if k < |s| {
      assert s[..|s| - 1][..k] == s[..k];
      TopUpRoomPrefix(s[..|s| - 1], item, k);
    } else {
      assert s[..k] == s;
    }
  }

  /** The empty room of a prefix never exceeds that of the whole contents. */
  lemma {:induction false} EmptyRoomPrefix(s: Slots, item: ItemStack, k: nat)
    requires k <= |s|
    ensures EmptyRoom(s[..k], item) <= EmptyRoom(s, item)
    decreases |s|
  {
    if k < |s| {
      assert s[..|s| - 1][..k] == s[..k];
      EmptyRoomPrefix(s[..|s| - 1], item, k);
    } else {
      assert s[..k] == s;
    }
  }

  /** The first p slots have at most the room of the first q, for p <= q. */
  lemma RoomMonotone(s: Slots, item: ItemStack, p: nat, q: nat)
    requires p <= q <= |s|
    ensures TopUpRoom(s[..p], item) <= TopUpRoom(s[..q], item)
    ensures EmptyRoom(s[..p], item) <= EmptyRoom(s[..q], item)
  {
    assert s[..q][..p] == s[..p];
    TopUpRoomPrefix(s[..q], item, p);
    EmptyRoomPrefix(s[..q], item, p);
  }

  /** Only one slot can be the one where the first phase places its last item. */
  lemma LastToppedUpSlotUnique(before: Slots, item: ItemStack, amount: int, p1: int, p2: int)
    requires LastToppedUpSlot(before, item, amount, p1) && LastToppedUpSlot(before, item, amount, p2)
    ensures p1 == p2
  {
    if p1 < p2 {
      TopUpRoomStep(before, item, p1);
      RoomMonotone(before, item, p1 + 1, p2);
    } else if p2 < p1 {
      TopUpRoomStep(before, item, p2);
      RoomMonotone(before, item, p2 + 1, p1);
    }
  }

  /** Only one empty slot can be the one where the second phase places its last item. */
  lemma LastFilledSlotUnique(before: Slots, item: ItemStack, amount: int, p1: int, p2: int)
    requires LastFilledSlot(before, item, amount, p1) && LastFilledSlot(before, item, amount, p2)
    ensures p1 == p2
  {
    if p1 < p2 {
      EmptyRoomStep(before, item, p1);
      RoomMonotone(before, item, p1 + 1, p2);
    } else if p2 < p1 {
      EmptyRoomStep(before, item, p2);
      RoomMonotone(before, item, p2 + 1, p1);
    }
  }

  /** ToppedUpUntil determines the slots completely. */
  lemma ToppedUpUntilDetermines(before: Slots, a1: Slots, a2: Slots, item: ItemStack, amount: int)
    requires ToppedUpUntil(before, a1, item, amount) && ToppedUpUntil(before, a2, item, amount)
    ensures a1 == a2
  {
    var p1 :| 0 <= p1 < |before| && ToppedUpAt(before, a1, item, amount, p1);
    var p2 :| 0 <= p2 < |before| && ToppedUpAt(before, a2, item, amount, p2);
    LastToppedUpSlotUnique(before, item, amount, p1, p2);
    assert forall k :: 0 <= k < |a1| ==> a1[k] == a2[k];
  }

  /** FilledUntil determines the slots completely. */
  lemma FilledUntilDetermines(before: Slots, a1: Slots, a2: Slots, item: ItemStack, amount: int)
    requires FilledUntil(before, a1, item, amount) && FilledUntil(before, a2, item, amount)
    ensures a1 == a2
  {
    var p1 :| 0 <= p1 < |before| && FilledAt(before, a1, item, amount, p1);
    var p2 :| 0 <= p2 < |before| && FilledAt(before, a2, item, amount, p2);
    LastFilledSlotUnique(before, item, amount, p1, p2);
    assert forall k :: 0 <= k < |a1| ==> a1[k] == a2[k];
  }

  /** Topping up partial stacks leaves the empty slots, and so their room, as they were. */
  lemma {:induction false} EmptyRoomAfterTopUp(s: Slots, item: ItemStack)
    ensures EmptyRoom(AllToppedUp(s, item), item) == EmptyRoom(s, item)
    decreases |s|
  {
    if |s| > 0 {
      var t := AllToppedUp(s, item);
      assert t[..|t| - 1] == AllToppedUp(s[..|s| - 1], item);
      EmptyRoomAfterTopUp(s[..|s| - 1], item);
    }
  }

  /** The slot changes the first phase makes when it places everything: allowed ones, empty slots untouched. */
  lemma ToppedUpAtChanges(before: Slots, after: Slots, item: ItemStack, amount: int, p: int)
    requires ToppedUpAt(before, after, item, amount, p)
    ensures ToppedUpUntil(before, after, item, amount)
    ensures amount <= TopUpRoom(before, item)
    ensures AddedToEach(before, after, item) && KeepsEmptySlots(before, after)
  {
    TopUpRoomStep(before, item, p);
    TopUpRoomPrefix(before, item, p + 1);
  }

  /** Topping up every partial similar stack is a change addItems may make, and leaves empty slots untouched. */
  lemma AllToppedUpChanges(before: Slots, item: ItemStack)
    ensures AddedToEach(before, AllToppedUp(before, item), item) && KeepsEmptySlots(before, AllToppedUp(before, item))
  {
  }

  /** The slot changes the second phase makes when it places everything: allowed ones. */
  lemma FilledAtChanges(before: Slots, after: Slots, item: ItemStack, amount: int, p: int)
    requires FilledAt(before, after, item, amount, p)
    ensures FilledUntil(before, after, item, amount)
    ensures amount <= EmptyRoom(before, item)
    ensures FillsEmptySlots(before, after, item)
  {
    EmptyRoomStep(before, item, p);
    EmptyRoomPrefix(before, item, p + 1);
  }

  /** One more slot visited by the first phase of addItems when it tops that slot up. */
  lemma ToppedUpStep(before: Slots, current: Slots, item: ItemStack, i: nat)
    requires |current| == |before| && i < |before|
    requires forall k :: i <= k < |before| ==> current[k] == before[k]
    requires forall k :: 0 <= k < i ==> current[k] == ToppedUp(before[k], item)
    ensures var next := current[i := ToppedUp(before[i], item)];
      (forall k :: i + 1 <= k < |before| ==> next[k] == before[k]) &&
      (forall k :: 0 <= k < i + 1 ==> next[k] == ToppedUp(before[k], item))
  {
  }

  /** One more slot visited by the second phase of addItems when it fills that slot. */
  lemma FilledStep(before: Slots, current: Slots, item: ItemStack, i: nat)
    requires |current| == |before| && i < |before|
    requires forall k :: i <= k < |before| ==> current[k] == before[k]
    requires forall k :: 0 <= k < i ==> current[k] == Filled(before[k], item)
    ensures var next := current[i := Filled(before[i], item)];
      (forall k :: i + 1 <= k < |before| ==> next[k] == before[k]) &&
      (forall k :: 0 <= k < i + 1 ==> next[k] == Filled(before[k], item))
  {
  }

  /**
   * The first phase of addItems: tops up partial similar stacks in slot
   * order. Returns the amount still to add: zero when the partial stacks
   * have room for all items, which then end in the slots as
   * ToppedUpUntil describes; otherwise every partial similar stack is now
   * full and the items they had no room for are returned.
   */
  method TopUpPartialStacks(contents: array<Option<ItemStack>>, item: ItemStack, amount: int32)
    returns (remaining: int32)
    requires amount > 0
    modifies contents
    ensures remaining == if amount <= TopUpRoom(old(contents[..]), item) then 0 else amount - TopUpRoom(old(contents[..]), item)
    ensures remaining == 0 ==> ToppedUpUntil(old(contents[..]), contents[..], item, amount)
    ensures remaining > 0 ==> contents[..] == AllToppedUp(old(contents[..]), item)
    ensures AddedToEach(old(contents[..]), contents[..], item) && KeepsEmptySlots(old(contents[..]), contents[..])
    ensures TotalAmount(contents[..]) == TotalAmount(old(contents[..])) + (amount - remaining)
  {
    var max := item.itemType.maxStackSize;
    remaining := amount;
    ghost var orig := contents[..];
    ghost var current := orig;
    var slot := 0;
    while slot < contents.Length
      invariant 0 <= slot <= contents.Length
      invariant 0 < remaining <= amount
      invariant contents[..] == current && |current| == |orig|
      invariant remaining == amount - TopUpRoom(orig[..slot], item)
      invariant forall k :: slot <= k < |orig| ==> current[k] == orig[k]
      invariant forall k :: 0 <= k < slot ==> current[k] == ToppedUp(orig[k], item)
      invariant TotalAmount(current) == TotalAmount(orig) + (amount - remaining)
    {
      var slotItem := contents[slot];
      TopUpRoomStep(orig, item, slot);
      ToppedUpStep(orig, current, item, slot);
      if !IsEmpty(slotItem) && slotItem.value.amount < max && Similar(item, slotItem) {
        var slotAmount := slotItem.value.amount;
        var step := FillStep(slotAmount, remaining, max);
        var updated := Some(slotItem.value.(amount := step.0));
        contents[slot] := updated;
        TotalAmountUpdate(current, slot, updated);
        if step.1 == 0 {
          assert ToppedUpAt(orig, current[slot := updated], item, amount, slot);
          ToppedUpAtChanges(orig, current[slot := updated], item, amount, slot);
          assert contents[..] == current[slot := updated];
          return 0;
        }
        remaining := step.1;
      }
      current := current[slot := ToppedUp(orig[slot], item)];
      assert contents[..] == current;
      slot := slot + 1;
    }
    assert orig[..slot] == orig;
    assert current == AllToppedUp(orig, item);
    AllToppedUpChanges(orig, item);
  }

  /**
   * The second phase of addItems: puts copies of the item into empty slots
   * in slot order, full stacks while more than max items remain. Returns
   * the amount that did not fit: zero when the empty slots have room for
   * all items, which then end in the slots as FilledUntil describes;
   * otherwise every empty slot now holds a full stack.
   */
  method FillEmptySlots(contents: array<Option<ItemStack>>, item: ItemStack, amount: int32)
    returns (remaining: int32)
    requires amount > 0
    modifies contents
    ensures remaining == if amount <= EmptyRoom(old(contents[..]), item) then 0 else amount - EmptyRoom(old(contents[..]), item)
    ensures remaining == 0 ==> FilledUntil(old(contents[..]), contents[..], item, amount)
    ensures remaining > 0 ==> contents[..] == AllFilled(old(contents[..]), item)
    ensures FillsEmptySlots(old(contents[..]), contents[..], item)
    ensures !IsAir(item.itemType) ==> TotalAmount(contents[..]) == TotalAmount(old(contents[..])) + (amount - remaining)
  {
    var max := item.itemType.maxStackSize;
    remaining := amount;
    ghost var orig := contents[..];
    ghost var current := orig;
    var slot := 0;
    while slot < contents.Length
      invariant 0 <= slot <= contents.Length
      invariant 0 < remaining <= amount
      invariant contents[..] == current && |current| == |orig|
      invariant remaining == amount - EmptyRoom(orig[..slot], item)
      invariant forall k :: slot <= k < |orig| ==> current[k] == orig[k]
      invariant forall k :: 0 <= k < slot ==> current[k] == Filled(orig[k], item)
      invariant !IsAir(item.itemType) ==> TotalAmount(current) == TotalAmount(orig) + (amount - remaining)
    {
      EmptyRoomStep(orig, item, slot);
      FilledStep(orig, current, item, slot);
      if IsEmpty(contents[slot]) {
        if remaining > max {
          var full := Some(StackOf(item, max));
          contents[slot] := full;
          TotalAmountUpdate(current, slot, full);
          remaining := remaining - max;
        } else {
          var rest := Some(StackOf(item, remaining));
          contents[slot] := rest;
          TotalAmountUpdate(current, slot, rest);
          assert FilledAt(orig, current[slot := rest], item, amount, slot);
          FilledAtChanges(orig, current[slot := rest], item, amount, slot);
          assert contents[..] == current[slot := rest];
          return 0;
        }
      }
      current := current[slot := Filled(orig[slot], item)];
      assert contents[..] == current;
      slot := slot + 1;
    }
    assert orig[..slot] == orig;
    assert current == AllFilled(orig, item);
  }

  /** A slot topped up and then possibly filled has changed as addItems may change it. */
  lemma AddedToAfterBothPhases(before: Option<ItemStack>, after: Option<ItemStack>, item: ItemStack)
    requires FilledInto(ToppedUp(before, item), after, item)
    ensures AddedTo(before, after, item)
  {
  }

  /** If an empty slot received items, every partial similar stack was topped up first. */
  predicate TopsUpBeforeFilling(before: Slots, after: Slots, item: ItemStack) {
    |after| == |before| &&
    ((exists k :: 0 <= k < |before| && IsEmpty(before[k]) && after[k] != before[k]) ==>
      forall k :: 0 <= k < |before| && PartiallyFilled(before[k], item) ==> after[k] == ToppedUp(before[k], item))
  }

  /** The changes of both phases together, once the first could not place everything. */
  lemma BothPhasesChanges(before: Slots, after: Slots, item: ItemStack)
    requires FillsEmptySlots(AllToppedUp(before, item), after, item)
    ensures AddedToEach(before, after, item) && TopsUpBeforeFilling(before, after, item)
  {
    forall k | 0 <= k < |before|
      ensures AddedTo(before[k], after[k], item)
      ensures PartiallyFilled(before[k], item) ==> after[k] == ToppedUp(before[k], item)
    {
      AddedToAfterBothPhases(before[k], after[k], item);
    }
  }

  /** What addItems returns once the first phase leaves items over. */
  lemma LeftoverAfterBothPhases(before: Slots, item: ItemStack, amount: int32, remaining: int32, rest: int32)
    requires amount > 0 && remaining > 0 && remaining == amount - TopUpRoom(before, item)
    requires var room := EmptyRoom(AllToppedUp(before, item), item);
      rest == if remaining <= room then 0 else remaining - room
    ensures rest == Leftover(before, item, amount)
    ensures rest == 0 <==> amount <= TopUpRoom(before, item) + EmptyRoom(before, item)
  {
    EmptyRoomAfterTopUp(before, item);
  }

  /** When the first phase places everything, no empty slot changes. */
  lemma TopUpOnlyChanges(before: Slots, after: Slots, item: ItemStack)
    requires AddedToEach(before, after, item) && KeepsEmptySlots(before, after)
    ensures TopsUpBeforeFilling(before, after, item)
  {
  }

  /**
   * The amount addItems cannot place: whatever exceeds the room of the
   * partial similar stacks and of the empty slots.
   */
  function Leftover(s: Slots, item: ItemStack, amount: int32): (r: int32)
    requires amount >= 0
    ensures 0 <= r <= amount
    ensures r == 0 <==> amount <= TopUpRoom(s, item) + EmptyRoom(s, item)
  {
    var room := TopUpRoom(s, item) + EmptyRoom(s, item);
    if amount <= room then 0 else amount - room
  }

  /**
   * addItems: adds amount copies of the item, first topping up partial
   * similar stacks in slot order, then filling empty slots in slot order
   * with stacks of at most max items; returns the amount that did not fit.
   */
  method AddItems(contents: array<Option<ItemStack>>, item: ItemStack, amount: int32)
    returns (r: Result<int32, string>)
    modifies contents
    ensures amount < 0 ==> r.Failure? && contents[..] == old(contents[..])
    ensures amount == 0 ==> r == Success(0) && contents[..] == old(contents[..])
    ensures amount >= 0 ==> r == Success(Leftover(old(contents[..]), item, amount))
    ensures 0 < amount <= TopUpRoom(old(contents[..]), item) ==>
      ToppedUpUntil(old(contents[..]), contents[..], item, amount)
    ensures TopUpRoom(old(contents[..]), item) < amount <= TopUpRoom(old(contents[..]), item) + EmptyRoom(old(contents[..]), item) ==>
      FilledUntil(AllToppedUp(old(contents[..]), item), contents[..], item, amount - TopUpRoom(old(contents[..]), item))
    ensures r.Success? && r.value > 0 ==> contents[..] == AllFilled(AllToppedUp(old(contents[..]), item), item)
    ensures AddedToEach(old(contents[..]), contents[..], item)
    ensures amount >= 0 && !IsAir(item.itemType) ==>
      TotalAmount(contents[..]) == TotalAmount(old(contents[..])) + (amount - r.value)
    ensures TopsUpBeforeFilling(old(contents[..]), contents[..], item)
  {
    if amount < 0 {
      return Failure("amount is negative");
    }
    if amount == 0 {
      return Success(0);
    }
    var rest := AddBothPhases(contents, item, amount);
    return Success(rest);
  }

  /** The two phases of addItems, for a positive amount. */
  method AddBothPhases(contents: array<Option<ItemStack>>, item: ItemStack, amount: int32)
    returns (rest: int32)
    requires amount > 0
    modifies contents
    ensures rest == Leftover(old(contents[..]), item, amount)
    ensures amount <= TopUpRoom(old(contents[..]), item) ==>
      ToppedUpUntil(old(contents[..]), contents[..], item, amount)
    ensures TopUpRoom(old(contents[..]), item) < amount <= TopUpRoom(old(contents[..]), item) + EmptyRoom(old(contents[..]), item) ==>
      FilledUntil(AllToppedUp(old(contents[..]), item), contents[..], item, amount - TopUpRoom(old(contents[..]), item))
    ensures rest > 0 ==> contents[..] == AllFilled(AllToppedUp(old(contents[..]), item), item)
    ensures AddedToEach(old(contents[..]), contents[..], item)
    ensures !IsAir(item.itemType) ==>
      TotalAmount(contents[..]) == TotalAmount(old(contents[..])) + (amount - rest)
    ensures TopsUpBeforeFilling(old(contents[..]), contents[..], item)
  {
    ghost var orig := contents[..];
    var remaining := TopUpPartialStacks(contents, item, amount);
    if remaining == 0 {
      TopUpOnlyChanges(orig, contents[..], item);
      return 0;
    }
    ghost var mid := contents[..];
    rest := FillEmptySlots(contents, item, remaining);
    LeftoverAfterBothPhases(orig, item, amount, remaining, rest);
    BothPhasesChanges(orig, contents[..], item);
    assert mid == AllToppedUp(orig, item);
    assert rest == 0 ==> FilledUntil(mid, contents[..], item, remaining);
  }

  // ---------------------------------------------------------------------
  // removeItems

  /**
   * The changes removeItems may make to one slot: none, or a matching stack
   * is cleared, or a matching stack keeps fewer (but some) items.
   */
  predicate RemovedFrom(before: Option<ItemStack>, after: Option<ItemStack>, itemMatcher: ItemStack -> bool) {
    after == before ||
    (SlotMatches(before, itemMatcher) &&
      (after.None? ||
        (after.value == before.value.(amount := after.value.amount) && 0 < after.value.amount < before.value.amount)))
  }

  /** Every slot changed only as removeItems may change it. */
  predicate RemovedFromEach(before: Slots, after: Slots, itemMatcher: ItemStack -> bool) {
    |after| == |before| && forall k :: 0 <= k < |before| ==> RemovedFrom(before[k], after[k], itemMatcher)
  }

  /** Every matching stack before a changed slot has been cleared: removal goes in slot order. */
  predicate ClearsInSlotOrder(before: Slots, after: Slots, itemMatcher: ItemStack -> bool) {
    |after| == |before| &&
    forall j, k :: 0 <= k < j < |before| && after[j] != before[j] && SlotMatches(before[k], itemMatcher) ==>
      after[k].None?
  }

  /** The slot emptied if it holds a matching stack, otherwise unchanged. */
  function Cleared(slot: Option<ItemStack>, itemMatcher: ItemStack -> bool): Option<ItemStack> {
    if SlotMatches(slot, itemMatcher) then None else slot
  }

  /** Every matching stack cleared. */
  function AllCleared(s: Slots, itemMatcher: ItemStack -> bool): (r: Slots)
    ensures |r| == |s| && forall k :: 0 <= k < |s| ==> r[k] == Cleared(s[k], itemMatcher)
  {
    seq(|s|, k requires 0 <= k < |s| => Cleared(s[k], itemMatcher))
  }

  /** The matching stack at p is where removeItems takes the last of amount items. */
  predicate LastRemovedSlot(before: Slots, itemMatcher: ItemStack -> bool, amount: int, p: int) {
    0 <= p < |before| && SlotMatches(before[p], itemMatcher) &&
    MatchingAmount(before[..p], itemMatcher) < amount <= MatchingAmount(before[..p], itemMatcher) + before[p].value.amount
  }

  /** A stack with n of its items taken: cleared when that is all of them. */
  function Shrunk(stack: ItemStack, n: int): Option<ItemStack>
    requires 0 < n <= stack.amount
  {
    if n == stack.amount then None else Some(stack.(amount := stack.amount - n))
  }

  /**
   * The slots after removeItems took all amount items, the last from slot
   * p: that stack lost the rest, the matching stacks before it were
   * cleared, and every other slot is unchanged.
   */
  predicate RemovedAt(before: Slots, after: Slots, itemMatcher: ItemStack -> bool, amount: int, p: int) {
    LastRemovedSlot(before, itemMatcher, amount, p) && |after| == |before| &&
    after[p] == Shrunk(before[p].value, amount - MatchingAmount(before[..p], itemMatcher)) &&
    (forall k :: 0 <= k < p ==> after[k] == Cleared(before[k], itemMatcher)) &&
    (forall k :: p < k < |before| ==> after[k] == before[k])
  }

  /** The slots after removeItems took all amount items. */
  predicate RemovedUntil(before: Slots, after: Slots, itemMatcher: ItemStack -> bool, amount: int) {
    exists p :: 0 <= p < |before| && RemovedAt(before, after, itemMatcher, amount, p)
  }

  /** Extending a prefix by one slot adds that slot's matching amount. */
  lemma MatchingAmountStep(s: Slots, itemMatcher: ItemStack -> bool, i: nat)
    requires i < |s|
    ensures MatchingAmount(s[..i + 1], itemMatcher) ==
      MatchingAmount(s[..i], itemMatcher) + if SlotMatches(s[i], itemMatcher) then s[i].value.amount as nat else 0
  {
    assert s[..i + 1][..i] == s[..i];
  }

  /** Only one slot can be the one where removeItems takes its last item. */
  lemma LastRemovedSlotUnique(before: Slots, itemMatcher: ItemStack -> bool, amount: int, p1: int, p2: int)
    requires LastRemovedSlot(before, itemMatcher, amount, p1) && LastRemovedSlot(before, itemMatcher, amount, p2)
    ensures p1 == p2
  {
    if p1 != p2 {
      var lo := if p1 < p2 then p1 else p2;
      var hi := if p1 < p2 then p2 else p1;
      MatchingAmountStep(before, itemMatcher, lo);
      assert before[..hi][..lo + 1] == before[..lo + 1];
      MatchingAmountPrefix(before[..hi], itemMatcher, lo + 1);
    }
  }

  /** RemovedUntil determines the slots completely. */
  lemma RemovedUntilDetermines(before: Slots, a1: Slots, a2: Slots, itemMatcher: ItemStack -> bool, amount: int)
    requires RemovedUntil(before, a1, itemMatcher, amount) && RemovedUntil(before, a2, itemMatcher, amount)
    ensures a1 == a2
  {
    var p1 :| 0 <= p1 < |before| && RemovedAt(before, a1, itemMatcher, amount, p1);
    var p2 :| 0 <= p2 < |before| && RemovedAt(before, a2, itemMatcher, amount, p2);
    LastRemovedSlotUnique(before, itemMatcher, amount, p1, p2);
    assert forall k :: 0 <= k < |a1| ==> a1[k] == a2[k];
  }

  /** The slot changes removeItems makes when it takes everything: allowed ones, in slot order. */
  lemma RemovedAtChanges(before: Slots, after: Slots, itemMatcher: ItemStack -> bool, amount: int, p: int)
    requires RemovedAt(before, after, itemMatcher, amount, p)
    ensures RemovedUntil(before, after, itemMatcher, amount)
    ensures amount <= MatchingAmount(before, itemMatcher)
    ensures RemovedFromEach(before, after, itemMatcher) && ClearsInSlotOrder(before, after, itemMatcher)
  {
    MatchingAmountStep(before, itemMatcher, p);
    MatchingAmountPrefix(before, itemMatcher, p + 1);
  }

  /**
   * The step at which removeItems takes its last items: the matching stack
   * at p, reached with the earlier matching stacks cleared, shrinks by the
   * remaining amount.
   */
  lemma TakesLastAt(before: Slots, current: Slots, itemMatcher: ItemStack -> bool, amount: int, p: nat, remaining: int)
    requires |current| == |before| && p < |before|
    requires forall k :: p <= k < |before| ==> current[k] == before[k]
    requires forall k :: 0 <= k < p ==> current[k] == Cleared(before[k], itemMatcher)
    requires SlotMatches(before[p], itemMatcher) && 0 < remaining <= before[p].value.amount
    requires remaining == amount - MatchingAmount(before[..p], itemMatcher)
    ensures var after := current[p := Shrunk(before[p].value, remaining)];
      RemovedUntil(before, after, itemMatcher, amount) && amount <= MatchingAmount(before, itemMatcher) &&
      RemovedFromEach(before, after, itemMatcher) && ClearsInSlotOrder(before, after, itemMatcher)
  {
    var after := current[p := Shrunk(before[p].value, remaining)];
    assert RemovedAt(before, after, itemMatcher, amount, p);
    RemovedAtChanges(before, after, itemMatcher, amount, p);
  }

  /** One more slot of the contents visited by removeItems' loop when it takes all of that slot's items. */
  lemma ClearStep(before: Slots, current: Slots, itemMatcher: ItemStack -> bool, i: nat)
    requires |current| == |before| && i < |before|
    requires forall k :: i <= k < |before| ==> current[k] == before[k]
    requires forall k :: 0 <= k < i ==> current[k] == Cleared(before[k], itemMatcher)
    ensures var next := current[i := Cleared(before[i], itemMatcher)];
      (forall k :: i + 1 <= k < |before| ==> next[k] == before[k]) &&
      (forall k :: 0 <= k < i + 1 ==> next[k] == Cleared(before[k], itemMatcher))
  {
  }

  /** Clearing every matching stack is a change removeItems may make, in slot order. */
  lemma AllClearedChanges(before: Slots, itemMatcher: ItemStack -> bool)
    ensures RemovedFromEach(before, AllCleared(before, itemMatcher), itemMatcher)
    ensures ClearsInSlotOrder(before, AllCleared(before, itemMatcher), itemMatcher)
  {
  }

  /**
   * The loop of removeItems, for a positive amount: clears matching stacks
   * in slot order and shrinks the last one touched; amount
   * Integer.MAX_VALUE clears every matching stack. Returns the amount that
   * could not be removed: whatever exceeds the matching amount.
   */
  method RemoveMatchingItems(contents: array<Option<ItemStack>>, itemMatcher: ItemStack -> bool, amount: int32)
    returns (remaining: int32)
    requires amount > 0
    modifies contents
    ensures 0 <= remaining <= amount
    ensures amount == MAX_INT ==> remaining == 0 && contents[..] == AllCleared(old(contents[..]), itemMatcher)
    ensures amount < MAX_INT ==>
      remaining == if amount <= MatchingAmount(old(contents[..]), itemMatcher) then 0
                   else amount - MatchingAmount(old(contents[..]), itemMatcher)
    ensures amount < MAX_INT && remaining == 0 ==> RemovedUntil(old(contents[..]), contents[..], itemMatcher, amount)
    ensures amount < MAX_INT && remaining > 0 ==> contents[..] == AllCleared(old(contents[..]), itemMatcher)
    ensures RemovedFromEach(old(contents[..]), contents[..], itemMatcher)
    ensures ClearsInSlotOrder(old(contents[..]), contents[..], itemMatcher)
    ensures amount < MAX_INT ==> TotalAmount(old(contents[..])) - TotalAmount(contents[..]) == amount - remaining
  {
    var removeAll := amount == MAX_INT;
    remaining := amount;
    ghost var orig := contents[..];
    ghost var current := orig;
    var slot := 0;
    while slot < contents.Length
      invariant 0 <= slot <= contents.Length
      invariant 0 < remaining <= amount
      invariant contents[..] == current && |current| == |orig|
      invariant !removeAll ==> remaining == amount - MatchingAmount(orig[..slot], itemMatcher)
      invariant forall k :: slot <= k < |orig| ==> current[k] == orig[k]
      invariant forall k :: 0 <= k < slot ==> current[k] == Cleared(orig[k], itemMatcher)
      invariant !removeAll ==> TotalAmount(orig) - TotalAmount(current) == amount - remaining
    {
      var slotItem := contents[slot];
      MatchingAmountStep(orig, itemMatcher, slot);
      ClearStep(orig, current, itemMatcher, slot);
      if SlotMatches(slotItem, itemMatcher) {
        if removeAll {
          contents[slot] := None;
        } else {
          var newAmount := slotItem.value.amount - remaining;
          var updated := if newAmount > 0 then Some(slotItem.value.(amount := newAmount)) else None;
          contents[slot] := updated;
          if newAmount >= 0 {
            // A positive new amount is the shrunk stack, zero a cleared slot: all items were removed.
            assert updated == Shrunk(orig[slot].value, remaining);
            TakesLastAt(orig, current, itemMatcher, amount, slot, remaining);
            TotalAmountUpdate(current, slot, updated);
            assert contents[..] == current[slot := updated];
            return 0;
          }
          remaining := -newAmount;
        }
        TotalAmountUpdate(current, slot, None);
      }
      current := current[slot := Cleared(orig[slot], itemMatcher)];
      assert contents[..] == current;
      slot := slot + 1;
    }
    assert orig[..slot] == orig;
    assert current == AllCleared(orig, itemMatcher);
    AllClearedChanges(orig, itemMatcher);
    if removeAll {
      remaining := 0;
    }
  }

  /**
   * removeItems: rejects a negative amount, removes nothing for amount
   * zero, and otherwise removes matching items as RemoveMatchingItems
   * describes. Returns the amount that could not be removed.
   */
  method RemoveItems(contents: array<Option<ItemStack>>, itemMatcher: ItemStack -> bool, amount: int32)
    returns (r: Result<int32, string>)
    modifies contents
    ensures amount < 0 ==> r.Failure? && contents[..] == old(contents[..])
    ensures amount >= 0 ==> r.Success? && 0 <= r.value <= amount
    ensures amount == 0 ==> contents[..] == old(contents[..])
    ensures amount == MAX_INT ==> r == Success(0) && contents[..] == AllCleared(old(contents[..]), itemMatcher)
    ensures 0 <= amount < MAX_INT ==>
      r.value == if amount <= MatchingAmount(old(contents[..]), itemMatcher) then 0
                 else amount - MatchingAmount(old(contents[..]), itemMatcher)
    ensures 0 < amount < MAX_INT && r == Success(0) ==> RemovedUntil(old(contents[..]), contents[..], itemMatcher, amount)
    ensures 0 <= amount < MAX_INT && r.Success? && r.value > 0 ==> contents[..] == AllCleared(old(contents[..]), itemMatcher)
    ensures RemovedFromEach(old(contents[..]), contents[..], itemMatcher)
    ensures ClearsInSlotOrder(old(contents[..]), contents[..], itemMatcher)
    ensures 0 <= amount < MAX_INT ==> TotalAmount(old(contents[..])) - TotalAmount(contents[..]) == amount - r.value
  {
    if amount < 0 {
      return Failure("amount is negative");
    }
    if amount == 0 {
      return Success(0);
    }
    var remaining := RemoveMatchingItems(contents, itemMatcher, amount);
    return Success(remaining);
  }

  // ---------------------------------------------------------------------
  // convertItems

  /**
   * One slot after conversion: non-empty stacks the filter accepts are
   * replaced by their conversion when that is no longer similar.
   */
  function ConvertSlot(slot: Option<ItemStack>, filter: Option<ItemStack -> bool>, convert: ItemStack -> ItemStack)
    : Option<ItemStack>
  {
    if IsEmpty(slot) || (filter.Some? && !filter.value(slot.value)) then slot
    else if !Similar(slot.value, Some(convert(slot.value))) then Some(convert(slot.value))
    else slot
  }

  /** The slots convertItems replaces. */
  predicate Converted(slot: Option<ItemStack>, filter: Option<ItemStack -> bool>, convert: ItemStack -> ItemStack) {
    !IsEmpty(slot) && (filter.None? || filter.value(slot.value)) && !Similar(slot.value, Some(convert(slot.value)))
  }

  /** The number of slots convertItems replaces. */
  function ConvertedCount(s: Slots, filter: Option<ItemStack -> bool>, convert: ItemStack -> ItemStack): nat {
    if |s| == 0 then 0
    else ConvertedCount(s[..|s| - 1], filter, convert) + if Converted(s[|s| - 1], filter, convert) then 1 else 0
  }

  /** The number of positions at which two equally long slot sequences differ. */
  function ChangedCount(a: Slots, b: Slots): nat
    requires |a| == |b|
  {
    if |a| == 0 then 0
    else ChangedCount(a[..|a| - 1], b[..|b| - 1]) + if a[|a| - 1] != b[|b| - 1] then 1 else 0
  }

  /**
   * convertItems: replaces every accepted, non-empty stack whose conversion
   * is not similar to it, and returns how many stacks it replaced.
   */
  method ConvertItems(contents: array<Option<ItemStack>>, filter: Option<ItemStack -> bool>, convert: ItemStack -> ItemStack)
    returns (convertedStacks: nat)
    modifies contents
    ensures forall k :: 0 <= k < contents.Length ==> contents[k] == ConvertSlot(old(contents[k]), filter, convert)
    ensures convertedStacks == ConvertedCount(old(contents[..]), filter, convert)
  {
    ghost var orig := contents[..];
    convertedStacks := 0;
    var slot := 0;
    while slot < contents.Length
      invariant 0 <= slot <= contents.Length
      invariant forall k :: slot <= k < contents.Length ==> contents[k] == orig[k]
      invariant forall k :: 0 <= k < slot ==> contents[k] == ConvertSlot(orig[k], filter, convert)
      invariant convertedStacks == ConvertedCount(orig[..slot], filter, convert)
    {
      var slotItem := contents[slot];
      assert orig[..slot + 1][..slot] == orig[..slot];
      if !IsEmpty(slotItem) && (filter.None? || filter.value(slotItem.value)) {
        var convertedItem := convert(slotItem.value);
        if !Similar(slotItem.value, Some(convertedItem)) {
          contents[slot] := Some(convertedItem);
          convertedStacks := convertedStacks + 1;
        }
      }
      slot := slot + 1;
    }
    assert orig[..slot] == orig;
  }

  /** The count convertItems returns is exactly the number of slots whose contents changed. */
  lemma {:induction false} ConvertedCountIsChangedSlots(s: Slots, filter: Option<ItemStack -> bool>, convert: ItemStack -> ItemStack)
    ensures var after := seq(|s|, k requires 0 <= k < |s| => ConvertSlot(s[k], filter, convert));
            ConvertedCount(s, filter, convert) == ChangedCount(s, after)
    decreases |s|
  {
    var after := seq(|s|, k requires 0 <= k < |s| => ConvertSlot(s[k], filter, convert));
    if |s| > 0 {
      var p := s[..|s| - 1];
      ConvertedCountIsChangedSlots(p, filter, convert);
      assert after[..|after| - 1] == seq(|p|, k requires 0 <= k < |p| => ConvertSlot(p[k], filter, convert));
      var last := s[|s| - 1];
      if Converted(last, filter, convert) {
        assert Similar(last.value, Some(last.value));
        assert after[|s| - 1] != last;
      }
    }
  }
}
