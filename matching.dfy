/**
 * Structural item-data matching (ItemUtils.matchesData): whether a target
 * value "contains" the data a requirement specifies.
 */
module ItemMatching {
  import opened Wrappers
  import opened Values
  import opened Items

  /**
   * _matchesData: null data matches anything; a non-null requirement is
   * never met by null; a map requirement needs a map target whose value at
   * each required key matches the required value (extra target keys are
   * ignored); in partial-list mode a list requirement needs a target list at
   * least as long in which every required element matches some element;
   * anything else needs Java equality.
   */
  predicate MatchesData(target: Value, data: Value, partialLists: bool)
    decreases data, 0
  {
    if data.Null? then true
    else if target.Null? then false
    else if data.Map? then
      target.Map? &&
      forall i :: 0 <= i < |data.entries| ==>
        MatchesData(Get(target.entries, data.entries[i].key), data.entries[i].val, partialLists)
    else if partialLists && data.List? then
      target.List? && |data.items| <= |target.items| &&
      forall i :: 0 <= i < |data.items| ==> ContainedIn(target.items, data.items[i], partialLists)
    else Equal(data, target)
  }

  /** Some element of the target list matches the required element. */
  predicate ContainedIn(targets: seq<Value>, data: Value, partialLists: bool)
    decreases data, 1
  {
    exists j :: 0 <= j < |targets| && MatchesData(targets[j], data, partialLists)
  }

  /** Anything Java-equal to the requirement matches it, in either list mode. */
  lemma {:induction false} EqualImpliesMatches(target: Value, data: Value, partialLists: bool)
    requires Equal(data, target)
    ensures MatchesData(target, data, partialLists)
    decreases data
  {
    match data
    case Map(es) =>
      forall i | 0 <= i < |es| ensures MatchesData(Get(target.entries, es[i].key), es[i].val, partialLists) {
        EqualImpliesMatches(Get(target.entries, es[i].key), es[i].val, partialLists);
      }
    case List(ds) =>
      if partialLists {
        forall i | 0 <= i < |ds| ensures ContainedIn(target.items, ds[i], partialLists) {
          EqualImpliesMatches(target.items[i], ds[i], partialLists);
          }
      }
    case _ =>
  }

  /**
   * Every well-formed value matches itself; so the identity shortcut at the
   * top of _matchesData never changes the answer.
   */
  lemma MatchesReflexive(v: Value, partialLists: bool)
    requires WellFormed(v)
    ensures MatchesData(v, v, partialLists)
  {
    EqualReflexive(v);
    EqualImpliesMatches(v, v, partialLists);
  }

  /** Containment is transitive: matching is a preorder together with MatchesReflexive. */
  lemma {:induction false} MatchesTransitive(x: Value, y: Value, z: Value, partialLists: bool)
    requires MatchesData(x, y, partialLists) && MatchesData(y, z, partialLists)
    ensures MatchesData(x, z, partialLists)
    decreases z
  {
    if z.Null? {
    } else if z.Map? {
      forall i | 0 <= i < |z.entries|
        ensures MatchesData(Get(x.entries, z.entries[i].key), z.entries[i].val, partialLists)
      {
        var k := z.entries[i].key;
        if HasKey(y.entries, k) {
          GetWitness(y.entries, k);
          var j :| 0 <= j < |y.entries| && y.entries[j].key == k && y.entries[j].val == Get(y.entries, k);
          MatchesTransitive(Get(x.entries, k), Get(y.entries, k), z.entries[i].val, partialLists);
        }
      }
    } else if partialLists && z.List? {
      forall i | 0 <= i < |z.items| ensures ContainedIn(x.items, z.items[i], partialLists) {
        var j :| 0 <= j < |y.items| && MatchesData(y.items[j], z.items[i], partialLists);
        var m :| 0 <= m < |x.items| && MatchesData(x.items[m], y.items[j], partialLists);
        MatchesTransitive(x.items[m], y.items[j], z.items[i], partialLists);
      }
    } else {
      EqualTransitive(z, y, x);
    }
  }

  /** Whatever matches without partial lists also matches with them. */
  lemma {:induction false} StrictImpliesPartial(target: Value, data: Value)
    requires MatchesData(target, data, false)
    ensures MatchesData(target, data, true)
    decreases data
  {
    if data.Map? && !target.Null? {
      forall i | 0 <= i < |data.entries|
        ensures MatchesData(Get(target.entries, data.entries[i].key), data.entries[i].val, true)
      {
        StrictImpliesPartial(Get(target.entries, data.entries[i].key), data.entries[i].val);
      }
    } else if data.List? {
      EqualImpliesMatches(target, data, true);
    }
  }

  /**
   * Keys the requirement does not mention are ignored: putting any value
   * under such a key into the target does not change the answer.
   */
  lemma ExtraTargetKeysIgnored(target: seq<Entry>, data: seq<Entry>, k: string, v: Value, partialLists: bool)
    requires !HasKey(data, k)
    ensures MatchesData(Map(Put(target, k, v)), Map(data), partialLists) <==> MatchesData(Map(target), Map(data), partialLists)
  {
    HasKeyIndex(data, k);
    forall i | 0 <= i < |data| ensures Get(Put(target, k, v), data[i].key) == Get(target, data[i].key) {
      PutGet(target, k, v, data[i].key);
    }
  }

  /** Matching is not symmetric: a richer map contains a poorer one but not vice versa. */
  lemma MatchingNotSymmetric(partialLists: bool)
    ensures var poor := Map([Entry("display-name", Str("a"))]);
            var rich := Map([Entry("display-name", Str("a")), Entry("lore", List([]))]);
            MatchesData(rich, poor, partialLists) && !MatchesData(poor, rich, partialLists)
  {
    var poor := [Entry("display-name", Str("a"))];
    var rich := [Entry("display-name", Str("a")), Entry("lore", List([]))];
    assert Get(poor, "lore") == Null by { assert !HasKey(poor[1..], "lore"); }
    assert !MatchesData(Get(poor, rich[1].key), rich[1].val, partialLists);
  }

  /**
   * In partial-list mode a required element may be matched by the same
   * target element more than once, so a requirement with a duplicate is
   * met by a target holding that element only once (the source's TODO);
   * strict mode rejects it.
   */
  lemma PartialListsIgnoreDuplicates()
    ensures var a := Str("a");
            var b := Str("b");
            MatchesData(List([a, b]), List([a, a]), true) && !MatchesData(List([a, b]), List([a, a]), false)
  {
    var t := [Str("a"), Str("b")];
    var d := [Str("a"), Str("a")];
    assert MatchesData(t[0], d[0], true) && MatchesData(t[0], d[1], true);
    assert !Equal(d[1], t[1]);
  }

  /**
   * A map requirement with distinct keys is met exactly when the target is
   * a map whose value under each required key matches the required value.
   */
  lemma MatchesDataByKey(target: seq<Entry>, data: seq<Entry>, partialLists: bool)
    requires UniqueKeys(data)
    ensures MatchesData(Map(target), Map(data), partialLists) <==>
            forall k :: HasKey(data, k) ==> MatchesData(Get(target, k), Get(data, k), partialLists)
  {
    if MatchesData(Map(target), Map(data), partialLists) {
      forall k | HasKey(data, k) ensures MatchesData(Get(target, k), Get(data, k), partialLists) {
        GetWitness(data, k);
        var i :| 0 <= i < |data| && data[i].key == k && data[i].val == Get(data, k);
        assert MatchesData(Get(target, data[i].key), data[i].val, partialLists);
      }
    } else {
      var i :| 0 <= i < |data| && !MatchesData(Get(target, data[i].key), data[i].val, partialLists);
      HasKeyIndex(data, data[i].key);
      GetOfUniqueEntry(data, i);
      assert HasKey(data, data[i].key) && !MatchesData(Get(target, data[i].key), Get(data, data[i].key), partialLists);
    }
  }

  /** In partial-list mode the order of the target list's elements is irrelevant. */
  lemma PartialListsIgnoreTargetOrder(t: seq<Value>, u: seq<Value>, data: Value)
    requires multiset(t) == multiset(u)
    ensures MatchesData(List(t), data, true) <==> MatchesData(List(u), data, true)
  {
    assert |t| == |multiset(t)| == |multiset(u)| == |u|;
    if data.List? {
      forall x | ContainedIn(t, x, true) ensures ContainedIn(u, x, true) {
        var j :| 0 <= j < |t| && MatchesData(t[j], x, true);
        assert t[j] in multiset(u);
        var m :| 0 <= m < |u| && u[m] == t[j];
      }
      forall x | ContainedIn(u, x, true) ensures ContainedIn(t, x, true) {
        var j :| 0 <= j < |u| && MatchesData(u[j], x, true);
        assert u[j] in multiset(t);
        var m :| 0 <= m < |t| && t[m] == u[j];
      }
    }
  }

  /** A required list longer than the target list never matches, in either mode. */
  lemma LongerRequiredListFails(target: seq<Value>, data: seq<Value>, partialLists: bool)
    requires |data| > |target|
    ensures !MatchesData(List(target), List(data), partialLists)
  {
  }

  /**
   * matchesData(ItemStack, ItemStack, partial): a null requirement matches,
   * a null item does not, the types must agree, and then the item's meta must
   * contain the required meta (null meta rules as in _matchesData).
   */
  predicate ItemMatchesData(item: Option<ItemStack>, data: Option<ItemStack>, partialLists: bool) {
    if data.None? then true
    else if item.None? then false
    else if item.value.itemType != data.value.itemType then false
    else MatchesData(item.value.meta, data.value.meta, partialLists)
  }

  /**
   * matchesData(ItemStack, Material, Map, partial): the item must be
   * non-null and of the given type; empty data is met by any such item.
   */
  predicate ItemMatchesTypeAndData(item: Option<ItemStack>, dataType: Material, data: seq<Entry>, partialLists: bool) {
    if item.None? then false
    else if item.value.itemType != dataType then false
    else if |data| == 0 then true
    else MatchesData(item.value.meta, Map(data), partialLists)
  }

  /** A stack whose meta serialization is well formed matches itself (the identity shortcut). */
  lemma ItemMatchesSelf(item: Option<ItemStack>, partialLists: bool)
    requires item.Some? ==> WellFormed(item.value.meta)
    ensures ItemMatchesData(item, item, partialLists)
  {
    if item.Some? {
      MatchesReflexive(item.value.meta, partialLists);
    }
  }

  /** Matching stacks share their material, and a null item matches only a null requirement. */
  lemma ItemMatchesNeedsSameType(item: Option<ItemStack>, data: Option<ItemStack>, partialLists: bool)
    requires ItemMatchesData(item, data, partialLists)
    ensures data.Some? ==> item.Some? && item.value.itemType == data.value.itemType
  {
  }

  /** Stack matching ignores the amounts of both stacks. */
  lemma ItemMatchingIgnoresAmounts(item: Option<ItemStack>, data: Option<ItemStack>, n: int32, m: int32, partialLists: bool)
    ensures ItemMatchesData(item, data, partialLists) <==>
            ItemMatchesData(CopyWithAmount(item, n), CopyWithAmount(data, m), partialLists)
  {
  }

  /**
   * The empty-data shortcut of the (type, map) overload changes nothing for
   * an item that has meta: the item matches iff its type is the given one
   * and its meta contains the map.
   */
  lemma EmptyDataShortcutAgrees(item: ItemStack, dataType: Material, data: seq<Entry>, partialLists: bool)
    requires item.meta.Map?
    ensures ItemMatchesTypeAndData(Some(item), dataType, data, partialLists) <==>
            item.itemType == dataType && MatchesData(item.meta, Map(data), partialLists)
  {
  }

  /**
   * Requirements given as a stack and as a type with a map agree when the
   * required meta is a non-empty map (as every item meta serialization is).
   */
  lemma ItemOverloadsAgree(item: Option<ItemStack>, data: ItemStack, partialLists: bool)
    requires data.meta.Map? && |data.meta.entries| > 0
    ensures ItemMatchesData(item, Some(data), partialLists) <==>
            ItemMatchesTypeAndData(item, data.itemType, data.meta.entries, partialLists)
  {
  }
}
