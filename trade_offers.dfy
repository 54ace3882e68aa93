/**
 * Trade offers and trading recipes as the shopkeepers hold them, and the
 * outcome of an item migration over a list of offers.
 */
module TradeOffers {
  import opened Wrappers
  import opened Items

  /**
   * A trade offer: a result item bought for one or two items. The flag tells
   * whether the offer is the plugin's own implementation (SKTradeOffer),
   * which is the only kind the shopkeepers accept.
   */
  datatype TradeOffer = TradeOffer(resultItem: ItemStack, item1: ItemStack, item2: Option<ItemStack>, isSKTradeOffer: bool)

  /** A trading recipe offered to a player. */
  datatype TradingRecipe = TradingRecipe(resultItem: ItemStack, item1: ItemStack, item2: Option<ItemStack>, outOfStock: bool)

  /** toTradingRecipe: the offer's items, with the given stock state. */
  function ToTradingRecipe(offer: TradeOffer, outOfStock: bool): (r: TradingRecipe)
    ensures r.resultItem == offer.resultItem && r.item1 == offer.item1 && r.item2 == offer.item2
    ensures r.outOfStock == outOfStock
  {
    TradingRecipe(offer.resultItem, offer.item1, offer.item2, outOfStock)
  }

  /**
   * What an item migration of a list returns: the very same list when no
   * item changed, otherwise a new list.
   */
  datatype Migration<T> = Unchanged | Migrated(offers: seq<T>)

  /** The length of the longest prefix of plugin-implemented offers. */
  function SKPrefixLength(offers: seq<TradeOffer>): (n: nat)
    ensures n <= |offers|
    ensures forall i :: 0 <= i < n ==> offers[i].isSKTradeOffer
    ensures n < |offers| ==> !offers[n].isSKTradeOffer
  {
    if |offers| == 0 || !offers[0].isSKTradeOffer then 0 else 1 + SKPrefixLength(offers[1..])
  }

  /** Every offer of the list is a plugin-implemented one. */
  predicate AllSK(offers: seq<TradeOffer>) {
    forall i :: 0 <= i < |offers| ==> offers[i].isSKTradeOffer
  }

  /** A list has no null element. */
  predicate NoNulls<T>(s: seq<Option<T>>) {
    forall i :: 0 <= i < |s| ==> s[i].Some?
  }

  /** The elements of a list without nulls. */
  function Unwrap<T>(s: seq<Option<T>>): (r: seq<T>)
    requires NoNulls(s)
    ensures |r| == |s| && forall i :: 0 <= i < |s| ==> s[i] == Some(r[i])
  {
    seq(|s|, i requires 0 <= i < |s| => s[i].value)
  }

  /**
   * The whole list is accepted exactly when its plugin-implemented prefix is
   * the whole list; so adding a list of such offers adds exactly that list.
   */
  lemma SKPrefixIsWholeIffAllSK(offers: seq<TradeOffer>)
    ensures SKPrefixLength(offers) == |offers| <==> AllSK(offers)
    ensures AllSK(offers) ==> offers[..SKPrefixLength(offers)] == offers
  {
  }
}
