/**
 * Item stacks and the elementary stack helpers of ItemUtils: emptiness,
 * amounts, copies with another amount, similarity, and capped increase.
 */
module Items {
  import opened Wrappers
  import opened Values

  const MIN_INT: int := -0x8000_0000
  const MAX_INT: int := 0x7fff_ffff

  /** Java's 32-bit int. */
  type int32 = x: int | MIN_INT <= x <= MAX_INT

  /** Two's-complement wrap-around of a mathematical integer into a Java int. */
  function Wrap32(x: int): (r: int32)
    ensures MIN_INT <= x <= MAX_INT ==> r == x
    ensures (r - x) % 0x1_0000_0000 == 0
  {
    (x - MIN_INT) % 0x1_0000_0000 + MIN_INT
  }

  /** A material's maximum stack size is at least one. */
  type StackSize = n: int | 1 <= n <= MAX_INT witness 1

  /**
   * The properties of a Bukkit Material that the core consults.
   * metaType is the "meta-type" discriminator that the serialization of an
   * item meta of this material carries, or Null if it cannot be determined.
   */
  datatype Material = Material(
    name: string,
    isItem: bool,
    isLegacy: bool,
    maxStackSize: StackSize,
    hasItemMeta: bool,
    metaType: Value)

  const AIR_NAME: string := "AIR"
  const META_TYPE_KEY: string := "meta-type"

  predicate IsAir(t: Material) {
    t.name == AIR_NAME
  }

  /**
   * An item stack. meta is the serialization of the stack's item meta
   * (a Map that includes the meta-type key), or Null when the material
   * carries no item meta.
   */
  datatype ItemStack = ItemStack(itemType: Material, amount: int32, meta: Value)

  /** The serialization of the empty item meta a freshly created stack of this material has. */
  function FreshMeta(t: Material): (m: Value)
    ensures t.hasItemMeta <==> m.Map?
    ensures m.Map? ==> Get(m.entries, META_TYPE_KEY) == t.metaType
  {
    if t.hasItemMeta then Map([Entry(META_TYPE_KEY, t.metaType)]) else Null
  }

  /** `new ItemStack(type, amount)`. */
  function NewItemStack(t: Material, amount: int32): ItemStack {
    ItemStack(t, amount, FreshMeta(t))
  }

  /** A stack is empty if it is null, of type AIR, or its amount is not positive. */
  predicate IsEmpty(s: Option<ItemStack>) {
    s.None? || IsAir(s.value.itemType) || s.value.amount <= 0
  }

  /** The stack's amount, or 0 for an empty stack. */
  function ItemStackAmount(s: Option<ItemStack>): (n: nat)
    ensures n == 0 <==> IsEmpty(s)
    ensures !IsEmpty(s) ==> n == s.value.amount
  {
    if IsEmpty(s) then 0 else s.value.amount
  }

  /** ItemStack.isSimilar: same material and same item meta; the amount is ignored. */
  predicate Similar(a: ItemStack, b: Option<ItemStack>) {
    b.Some? && a.itemType == b.value.itemType && a.meta == b.value.meta
  }

  /** ItemUtils.isSimilar: like Similar, but two nulls are also similar. */
  predicate SimilarOrBothNull(a: Option<ItemStack>, b: Option<ItemStack>) {
    if a.None? then b.None? else Similar(a.value, b)
  }

  /**
   * Similar stacks are the same stack up to their amounts, and
   * ItemUtils.isSimilar adds only that two nulls are similar.
   */
  lemma SimilarMeansEqualButAmount(a: ItemStack, b: ItemStack, x: Option<ItemStack>, y: Option<ItemStack>)
    ensures Similar(a, Some(b)) <==> b.(amount := a.amount) == a
    ensures !Similar(a, None)
    ensures SimilarOrBothNull(x, y) <==>
            (x.None? && y.None?) || (x.Some? && y.Some? && y.value.(amount := x.value.amount) == x.value)
  {
  }

  /** Whether a copy of a stack is empty depends only on its material being AIR and the requested amount. */
  lemma EmptyCopyIffNoItems(s: Option<ItemStack>, amount: int32)
    ensures IsEmpty(CopyWithAmount(s, amount)) <==> s.None? || IsAir(s.value.itemType) || amount <= 0
  {
  }

  /** A copy of the stack with the given amount; null stays null. */
  function CopyWithAmount(s: Option<ItemStack>, amount: int32): (r: Option<ItemStack>)
    ensures r.None? <==> s.None?
    ensures r.Some? ==> r.value.amount == amount && Similar(s.value, r)
  {
    if s.None? then None else Some(s.value.(amount := amount))
  }

  /**
   * increaseItemAmount: the stack with its amount raised by delta (Java int
   * arithmetic, so the sum wraps around) and capped at the max stack size,
   * or null if the stack was empty or ends up with no items.
   */
  function IncreaseItemAmount(s: Option<ItemStack>, delta: int32): (r: Option<ItemStack>)
    ensures IsEmpty(s) ==> r.None?
    ensures r.Some? ==> Similar(s.value, r) && 1 <= r.value.amount <= s.value.itemType.maxStackSize
  {
    if IsEmpty(s) then None
    else
      var sum := Wrap32(s.value.amount + delta);
      var newAmount := if sum < s.value.itemType.maxStackSize then sum else s.value.itemType.maxStackSize;
      if newAmount <= 0 then None
      else Some(s.value.(amount := newAmount))
  }

  /** descreaseItemAmount: increase by the (Java-negated) amount. */
  function DecreaseItemAmount(s: Option<ItemStack>, delta: int32): (r: Option<ItemStack>)
    ensures IsEmpty(s) ==> r.None?
    ensures r.Some? ==> Similar(s.value, r) && 1 <= r.value.amount <= s.value.itemType.maxStackSize
  {
    IncreaseItemAmount(s, Wrap32(-(delta as int)))
  }

  /**
   * Without overflow, increasing yields exactly min(amount + delta, max),
   * and null precisely when that is not positive.
   */
  lemma IncreaseWithoutOverflow(s: Option<ItemStack>, delta: int32)
    requires !IsEmpty(s) && s.value.amount + delta <= MAX_INT
    ensures var want := Min(s.value.amount + delta, s.value.itemType.maxStackSize);
            (IncreaseItemAmount(s, delta).None? <==> want <= 0) &&
            (want > 0 ==> IncreaseItemAmount(s, delta) == Some(s.value.(amount := want)))
  {
  }

  /** Increasing and then decreasing by the same small amount restores a stack below its cap. */
  lemma IncreaseDecreaseRoundTrip(s: Option<ItemStack>, delta: int32)
    requires !IsEmpty(s) && delta >= 0
    requires s.value.amount + delta <= s.value.itemType.maxStackSize
    ensures DecreaseItemAmount(IncreaseItemAmount(s, delta), delta) == s
  {
  }

  /**
   * Increasing a non-empty stack by a large amount overflows the Java sum
   * and returns null instead of a full stack.
   */
  lemma IncreaseOverflowEmpties(t: Material, meta: Value)
    requires !IsAir(t)
    ensures IncreaseItemAmount(Some(ItemStack(t, 1, meta)), MAX_INT) == None
  {
  }

  function Min(a: int, b: int): int {
    if a < b then a else b
  }
}
