/**
 * The offer list of a trading player shopkeeper (SKTradingPlayerShopkeeper):
 * an ordered list of plugin-implemented trade offers plus the dirty flag
 * that asks for the shopkeeper to be saved; the stock of each offer comes
 * from the shop's container.
 */
module TradingPlayerShopkeeper {
  import opened Wrappers
  import opened Items
  import opened Inventory
  import opened TradeOffers

  const OFFERS_NULL := "Offers is null!"
  const OFFERS_NULL_ELEMENTS := "Offers contains null elements!"
  const OFFER_NULL := "Offer is null!"
  const NOT_SK_OFFER := "offer is not of type SKTradeOffer"

  class TradingShopkeeper {
    var offers: seq<TradeOffer>
    var dirty: bool

    /** Only plugin-implemented offers are ever stored. */
    predicate Valid()
      reads this
    {
      AllSK(offers)
    }

    constructor ()
      ensures Valid() && offers == [] && !dirty
    {
      offers := [];
      dirty := false;
    }

    /** getOffers: the stored offers, in order. */
    function GetOffers(): (r: seq<TradeOffer>)
      reads this
      requires Valid()
      ensures AllSK(r) && |r| == |offers|
      ensures forall i :: 0 <= i < |r| ==> r[i] == offers[i]
    {
      offers
    }

    /**
     * getTradingRecipes: one recipe per offer, in order, with the offer's
     * items; it is out of stock when the container does not hold at least
     * the result item's amount of items similar to it.
     */
    method GetTradingRecipes(containerContents: array<Option<ItemStack>>) returns (recipes: seq<TradingRecipe>)
      requires Valid()
      ensures |recipes| == |offers|
      ensures forall i :: 0 <= i < |offers| ==>
        recipes[i] == ToTradingRecipe(offers[i], OutOfStock(containerContents[..], offers[i].resultItem))
    {
      recipes := [];
      for i := 0 to |offers|
        invariant |recipes| == i
        invariant forall k :: 0 <= k < i ==>
          recipes[k] == ToTradingRecipe(offers[k], OutOfStock(containerContents[..], offers[k].resultItem))
      {
        var resultItem := offers[i].resultItem;
        var inStock := ContainsAtLeast(containerContents, SimilarItems(resultItem), resultItem.amount);
        recipes := recipes + [ToTradingRecipe(offers[i], !inStock)];
      }
    }

    /** hasOffer: whether some offer's result item is similar to the given one. */
    method HasOffer(resultItem: ItemStack) returns (r: bool)
      ensures r <==> exists i :: 0 <= i < |offers| && Similar(offers[i].resultItem, Some(resultItem))
    {
      for i := 0 to |offers|
        invariant forall k :: 0 <= k < i ==> !Similar(offers[k].resultItem, Some(resultItem))
      {
        if Similar(offers[i].resultItem, Some(resultItem)) {
          return true;
        }
      }
      return false;
    }

    /**
     * getOffer: the first offer whose items equal the recipe's, or null;
     * the item comparison of an offer with a recipe is a parameter.
     */
    method GetOffer(recipe: TradingRecipe, areItemsEqual: (TradeOffer, TradingRecipe) -> bool) returns (r: Option<TradeOffer>)
      ensures r.None? <==> forall i :: 0 <= i < |offers| ==> !areItemsEqual(offers[i], recipe)
      ensures r.Some? ==>
        exists i :: 0 <= i < |offers| && r.value == offers[i] && areItemsEqual(offers[i], recipe) &&
          (forall k :: 0 <= k < i ==> !areItemsEqual(offers[k], recipe))
    {
      for i := 0 to |offers|
        invariant forall k :: 0 <= k < i ==> !areItemsEqual(offers[k], recipe)
      {
        if areItemsEqual(offers[i], recipe) {
          return Some(offers[i]);
        }
      }
      return None;
    }

    /** clearOffers: no offers remain, and the shopkeeper is marked dirty. */
    method ClearOffers()
      modifies this
      ensures Valid() && offers == [] && dirty
    {
      offers := [];
      dirty := true;
    }

    /**
     * _addOffers: appends the offers one at a time; at the first offer that
     * is not plugin-implemented it fails, keeping the offers added before it.
     */
    method AddOffersUnchecked(list: seq<TradeOffer>) returns (r: Outcome<string>)
      requires Valid()
      modifies this
      ensures Valid() && dirty == old(dirty)
      ensures offers == old(offers) + list[..SKPrefixLength(list)]
      ensures r.Pass? <==> AllSK(list)
      ensures r.Fail? ==> r.error == NOT_SK_OFFER
    {
      SKPrefixIsWholeIffAllSK(list);
      for i := 0 to |list|
        invariant Valid() && dirty == old(dirty)
        invariant forall k :: 0 <= k < i ==> list[k].isSKTradeOffer
        invariant offers == old(offers) + list[..i]
      {
        if !list[i].isSKTradeOffer {
          return Fail(NOT_SK_OFFER);
        }
        assert list[..i + 1] == list[..i] + [list[i]];
        offers := offers + [list[i]];
      }
      assert list[..|list|] == list;
      return Pass;
    }

    /**
     * setOffers: rejects a null list or one with null elements and changes
     * nothing then; otherwise replaces the offers by the list, up to its
     * first offer that is not plugin-implemented (where it fails without
     * marking the shopkeeper dirty), and marks the shopkeeper dirty.
     */
    method SetOffers(list: Option<seq<Option<TradeOffer>>>) returns (r: Outcome<string>)
      requires Valid()
      modifies this
      ensures Valid()
      ensures list.None? ==> r == Fail(OFFERS_NULL) && offers == old(offers) && dirty == old(dirty)
      ensures list.Some? && !NoNulls(list.value) ==>
        r == Fail(OFFERS_NULL_ELEMENTS) && offers == old(offers) && dirty == old(dirty)
      ensures list.Some? && NoNulls(list.value) ==>
        var l := Unwrap(list.value);
        offers == l[..SKPrefixLength(l)] &&
        (r.Pass? <==> AllSK(l)) &&
        (r.Pass? ==> dirty) &&
        (r.Fail? ==> r == Fail(NOT_SK_OFFER) && dirty == old(dirty))
    {
      if list.None? {
        return Fail(OFFERS_NULL);
      }
      if !NoNulls(list.value) {
        return Fail(OFFERS_NULL_ELEMENTS);
      }
      r := SetOffersUnchecked(Unwrap(list.value));
      if r.Pass? {
        dirty := true;
      }
    }

    /** _setOffers: clears the offers, then adds the list's. */
    method SetOffersUnchecked(list: seq<TradeOffer>) returns (r: Outcome<string>)
      requires Valid()
      modifies this
      ensures Valid() && dirty == old(dirty)
      ensures offers == list[..SKPrefixLength(list)]
      ensures r.Pass? <==> AllSK(list)
      ensures r.Fail? ==> r.error == NOT_SK_OFFER
    {
      offers := [];
      r := AddOffersUnchecked(list);
    }

    /**
     * addOffer: rejects a null offer and one that is not plugin-implemented,
     * changing nothing; otherwise appends it and marks the shopkeeper dirty.
     */
    method AddOffer(offer: Option<TradeOffer>) returns (r: Outcome<string>)
      requires Valid()
      modifies this
      ensures Valid()
      ensures offer.None? ==> r == Fail(OFFER_NULL) && offers == old(offers) && dirty == old(dirty)
      ensures offer.Some? && !offer.value.isSKTradeOffer ==>
        r == Fail(NOT_SK_OFFER) && offers == old(offers) && dirty == old(dirty)
      ensures offer.Some? && offer.value.isSKTradeOffer ==>
        r == Pass && offers == old(offers) + [offer.value] && dirty
    {
      if offer.None? {
        return Fail(OFFER_NULL);
      }
      if !offer.value.isSKTradeOffer {
        return Fail(NOT_SK_OFFER);
      }
      offers := offers + [offer.value];
      dirty := true;
      return Pass;
    }

    /**
     * addOffers: rejects a null list or one with null elements, changing
     * nothing; otherwise appends the list's offers up to the first that is
     * not plugin-implemented, and marks the shopkeeper dirty if all were.
     */
    method AddOffers(list: Option<seq<Option<TradeOffer>>>) returns (r: Outcome<string>)
      requires Valid()
      modifies this
      ensures Valid()
      ensures list.None? ==> r == Fail(OFFERS_NULL) && offers == old(offers) && dirty == old(dirty)
      ensures list.Some? && !NoNulls(list.value) ==>
        r == Fail(OFFERS_NULL_ELEMENTS) && offers == old(offers) && dirty == old(dirty)
      ensures list.Some? && NoNulls(list.value) ==>
        var l := Unwrap(list.value);
        offers == old(offers) + l[..SKPrefixLength(l)] &&
        (r.Pass? <==> AllSK(l)) &&
        (r.Pass? ==> dirty) &&
        (r.Fail? ==> r == Fail(NOT_SK_OFFER) && dirty == old(dirty))
    {
      if list.None? {
        return Fail(OFFERS_NULL);
      }
      if !NoNulls(list.value) {
        return Fail(OFFERS_NULL_ELEMENTS);
      }
      r := AddOffersUnchecked(Unwrap(list.value));
      if r.Pass? {
        dirty := true;
      }
    }

    /**
     * loadFromSaveData, given the loaded offers and the outcome of their
     * item migration: marks the shopkeeper dirty if migration produced a
     * new list, then sets the (migrated) offers without marking it dirty.
     */
    method LoadFromSaveData(loaded: seq<TradeOffer>, migration: Migration<TradeOffer>) returns (r: Outcome<string>)
      requires Valid()
      modifies this
      ensures Valid()
      ensures dirty == (old(dirty) || migration.Migrated?)
      ensures var l := if migration.Migrated? then migration.offers else loaded;
              offers == l[..SKPrefixLength(l)] && (r.Pass? <==> AllSK(l))
    {
      var migratedOffers := if migration.Migrated? then migration.offers else loaded;
      if migration.Migrated? {
        dirty := true;
      }
      r := SetOffersUnchecked(migratedOffers);
    }
  }

  /** An offer is out of stock when the contents hold fewer similar items than its result item's amount. */
  predicate OutOfStock(contents: Slots, resultItem: ItemStack) {
    !(resultItem.amount <= 0 || MatchingAmount(contents, SimilarItems(resultItem)) >= resultItem.amount)
  }

  /** An offer is in stock when one container slot alone holds enough items similar to its result. */
  lemma InStockWithSufficientSlot(contents: Slots, resultItem: ItemStack, i: nat)
    requires i < |contents| && !IsEmpty(contents[i]) && Similar(resultItem, contents[i])
    requires contents[i].value.amount >= resultItem.amount
    ensures !OutOfStock(contents, resultItem)
  {
    MatchingAmountCountsSlot(contents, SimilarItems(resultItem), i);
  }

  /** Without any similar stack in the container, an offer is out of stock unless its result amount is not positive. */
  lemma OutOfStockWithoutSimilarStacks(contents: Slots, resultItem: ItemStack)
    requires forall k :: 0 <= k < |contents| ==> IsEmpty(contents[k]) || !Similar(resultItem, contents[k])
    ensures OutOfStock(contents, resultItem) <==> resultItem.amount > 0
  {
    NoMatchingSlots(contents, SimilarItems(resultItem));
  }
}
