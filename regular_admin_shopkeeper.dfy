/**
 * The offer list of a regular admin shopkeeper (SKRegularAdminShopkeeper):
 * an ordered list of plugin-implemented trade offers plus the dirty flag
 * that asks for the shopkeeper to be saved.
 */
module RegularAdminShopkeeper {
  import opened Wrappers
  import opened TradeOffers

  const OFFERS_NULL := "Offers is null!"
  const OFFERS_NULL_ELEMENTS := "Offers contains null elements!"
  const OFFER_NULL := "Offer is null!"
  const NOT_SK_OFFER := "offer is not of type SKTradeOffer"

  class AdminShopkeeper {
    var offers: seq<TradeOffer>
    var dirty: bool

    /** Only plugin-implemented offers are ever stored. */
    predicate Valid()
      reads this
    {
      AllSK(offers)
    }

    constructor ()
      ensures Valid() && offers == [] && !dirty
    {
      offers := [];
      dirty := false;
    }

    /** getOffers: the stored offers, in order. */
    function GetOffers(): (r: seq<TradeOffer>)
      reads this
      requires Valid()
      ensures AllSK(r) && |r| == |offers|
      ensures forall i :: 0 <= i < |r| ==> r[i] == offers[i]
    {
      offers
    }

    /**
     * getTradingRecipes: the offers themselves, read as recipes that are
     * never out of stock (admin shops have unlimited stock).
     */
    method GetTradingRecipes() returns (recipes: seq<TradingRecipe>)
      requires Valid()
      ensures |recipes| == |offers|
      ensures forall i :: 0 <= i < |offers| ==>
        recipes[i].resultItem == offers[i].resultItem && recipes[i].item1 == offers[i].item1 &&
        recipes[i].item2 == offers[i].item2 && !recipes[i].outOfStock
    {
      recipes := seq(|offers|, i requires 0 <= i < |offers| reads this => ToTradingRecipe(offers[i], false));
    }

    /** clearOffers: no offers remain, and the shopkeeper is marked dirty. */
    method ClearOffers()
      modifies this
      ensures Valid() && offers == [] && dirty
    {
      offers := [];
      dirty := true;
    }

    /**
     * _addOffers: appends the offers one at a time; at the first offer that
     * is not plugin-implemented it fails, keeping the offers added before it.
     */
    method AddOffersUnchecked(list: seq<TradeOffer>) returns (r: Outcome<string>)
      requires Valid()
      modifies this
      ensures Valid() && dirty == old(dirty)
      ensures offers == old(offers) + list[..SKPrefixLength(list)]
      ensures r.Pass? <==> AllSK(list)
      ensures r.Fail? ==> r.error == NOT_SK_OFFER
    {
      SKPrefixIsWholeIffAllSK(list);
      for i := 0 to |list|
        invariant Valid() && dirty == old(dirty)
        invariant forall k :: 0 <= k < i ==> list[k].isSKTradeOffer
        invariant offers == old(offers) + list[..i]
      {
        if !list[i].isSKTradeOffer {
          return Fail(NOT_SK_OFFER);
        }
        assert list[..i + 1] == list[..i] + [list[i]];
        offers := offers + [list[i]];
      }
      assert list[..|list|] == list;
      return Pass;
    }

    /**
     * setOffers: rejects a null list or one with null elements and changes
     * nothing then; otherwise replaces the offers by the list, up to its
     * first offer that is not plugin-implemented (where it fails without
     * marking the shopkeeper dirty), and marks the shopkeeper dirty.
     */
    method SetOffers(list: Option<seq<Option<TradeOffer>>>) returns (r: Outcome<string>)
      requires Valid()
      modifies this
      ensures Valid()
      ensures list.None? ==> r == Fail(OFFERS_NULL) && offers == old(offers) && dirty == old(dirty)
      ensures list.Some? && !NoNulls(list.value) ==>
        r == Fail(OFFERS_NULL_ELEMENTS) && offers == old(offers) && dirty == old(dirty)
      ensures list.Some? && NoNulls(list.value) ==>
        var l := Unwrap(list.value);
        offers == l[..SKPrefixLength(l)] &&
        (r.Pass? <==> AllSK(l)) &&
        (r.Pass? ==> dirty) &&
        (r.Fail? ==> r == Fail(NOT_SK_OFFER) && dirty == old(dirty))
    {
      if list.None? {
        return Fail(OFFERS_NULL);
      }
      if !NoNulls(list.value) {
        return Fail(OFFERS_NULL_ELEMENTS);
      }
      r := SetOffersUnchecked(Unwrap(list.value));
      if r.Pass? {
        dirty := true;
      }
    }

    /** _setOffers: clears the offers, then adds the list's. */
    method SetOffersUnchecked(list: seq<TradeOffer>) returns (r: Outcome<string>)
      requires Valid()
      modifies this
      ensures Valid() && dirty == old(dirty)
      ensures offers == list[..SKPrefixLength(list)]
      ensures r.Pass? <==> AllSK(list)
      ensures r.Fail? ==> r.error == NOT_SK_OFFER
    {
      offers := [];
      r := AddOffersUnchecked(list);
    }

    /**
     * addOffer: rejects a null offer and one that is not plugin-implemented,
     * changing nothing; otherwise appends it and marks the shopkeeper dirty.
     */
    method AddOffer(offer: Option<TradeOffer>) returns (r: Outcome<string>)
      requires Valid()
      modifies this
      ensures Valid()
      ensures offer.None? ==> r == Fail(OFFER_NULL) && offers == old(offers) && dirty == old(dirty)
      ensures offer.Some? && !offer.value.isSKTradeOffer ==>
        r == Fail(NOT_SK_OFFER) && offers == old(offers) && dirty == old(dirty)
      ensures offer.Some? && offer.value.isSKTradeOffer ==>
        r == Pass && offers == old(offers) + [offer.value] && dirty
    {
      if offer.None? {
        return Fail(OFFER_NULL);
      }
      if !offer.value.isSKTradeOffer {
        return Fail(NOT_SK_OFFER);
      }
      offers := offers + [offer.value];
      dirty := true;
      return Pass;
    }

    /**
     * addOffers: rejects a null list or one with null elements, changing
     * nothing; otherwise appends the list's offers up to the first that is
     * not plugin-implemented, and marks the shopkeeper dirty if all were.
     */
    method AddOffers(list: Option<seq<Option<TradeOffer>>>) returns (r: Outcome<string>)
      requires Valid()
      modifies this
      ensures Valid()
      ensures list.None? ==> r == Fail(OFFERS_NULL) && offers == old(offers) && dirty == old(dirty)
      ensures list.Some? && !NoNulls(list.value) ==>
        r == Fail(OFFERS_NULL_ELEMENTS) && offers == old(offers) && dirty == old(dirty)
      ensures list.Some? && NoNulls(list.value) ==>
        var l := Unwrap(list.value);
        offers == old(offers) + l[..SKPrefixLength(l)] &&
        (r.Pass? <==> AllSK(l)) &&
        (r.Pass? ==> dirty) &&
        (r.Fail? ==> r == Fail(NOT_SK_OFFER) && dirty == old(dirty))
    {
      if list.None? {
        return Fail(OFFERS_NULL);
      }
      if !NoNulls(list.value) {
        return Fail(OFFERS_NULL_ELEMENTS);
      }
      r := AddOffersUnchecked(Unwrap(list.value));
      if r.Pass? {
        dirty := true;
      }
    }

    /**
     * loadFromSaveData, given the loaded offers and the outcome of their
     * item migration: marks the shopkeeper dirty if migration produced a
     * new list, then sets the (migrated) offers without marking it dirty.
     */
    method LoadFromSaveData(loaded: seq<TradeOffer>, migration: Migration<TradeOffer>) returns (r: Outcome<string>)
      requires Valid()
      modifies this
      ensures Valid()
      ensures dirty == (old(dirty) || migration.Migrated?)
      ensures var l := if migration.Migrated? then migration.offers else loaded;
              offers == l[..SKPrefixLength(l)] && (r.Pass? <==> AllSK(l))
    {
      var migratedOffers := if migration.Migrated? then migration.offers else loaded;
      if migration.Migrated? {
        dirty := true;
      }
      r := SetOffersUnchecked(migratedOffers);
    }
  }
}
