# Shopkeepers item and offer layer in Dafny

This project models the item and offer layer of the Shopkeepers Minecraft plugin. The areas covered are:

- **Values and items.** The value tree that item meta serializes to (maps with insertion-ordered keys, lists, scalars, Java's null), and item stacks as `(type, amount, meta)`.
- **Structural matching.** `ItemUtils._matchesData` checks that a requirement is contained in a target. The model is `ItemMatching`.
- **Inventory operations.** `addItems`, `removeItems` and `convertItems` update an array of optional stacks in place, and `containsAtLeast` reads one. The model is `Inventory`, built on the stack helpers of `Items`.
- **Item templates.** The canonical `ItemData` form has a compact string for meta-less items, the `meta-type` key is inserted on read and omitted on write, and deserialization has a typed error taxonomy. `ItemData.matches` and `withType` are included. The model is `ItemDataFormat`.
- **Offers.** Price offers (constructor validation, saving under ids "1", "2", …, loading with warnings, item migration), book offers (saving keyed by title), and trading recipes. The models are `PriceOffers`, `BookOffers` and `TradeOffers`.
- **Offer-list owners.** The trading player shopkeeper and the regular admin shopkeeper are classes holding an offer sequence and a dirty flag, updated by clear/set/add and by load-time migration.
- **Small utilities.** `Utils.replace/asList/findFirst/contains/concat` (module `Utils`), the memoising `Lazy`, the message-argument combinators, the parent/child/next link discipline and plain-text traversals of texts (module `Texts`), and the ordering rule of the living-entity object type registry.

Foreign calls are parameters. They are gathered in the `Host` record of `ItemDataFormat`:

- material parsing;
- colorize and decolorize;
- empty-meta detection for `blockMaterial`;
- item migration, given as a function argument.

Java's `Validate` failures and null arguments become `Result`/`Outcome` failure values that carry the source's messages; they are not preconditions.

## Model

| member | source | states |
|---|---|---|
| Items.Wrap32 | src/main/java/com/nisovin/shopkeepers/util/ItemUtils.java:1260 | Java int addition wraps modulo 2^32 and is the identity on in-range values |
| Items.ItemStackAmount | src/main/java/com/nisovin/shopkeepers/util/ItemUtils.java:321-323 | the amount is 0 exactly for an empty stack, otherwise the stack's amount |
| Items.FreshMeta | src/main/java/com/nisovin/shopkeepers/util/ItemData.java:121-131 | a fresh stack has a meta map exactly when its material supports meta, and that map carries the material's meta type |
| Items.SimilarMeansEqualButAmount | src/main/java/com/nisovin/shopkeepers/util/ItemUtils.java:532-535 | two stacks are similar exactly when they are equal up to their amounts, and no stack is similar to null; ItemUtils.isSimilar adds that two nulls are similar and nothing else involving null |
| Items.EmptyCopyIffNoItems | src/main/java/com/nisovin/shopkeepers/util/ItemUtils.java:177-179 | a copy of a stack with a given amount is empty exactly when the stack is null, its material is AIR, or the amount is not positive |
| Items.CopyWithAmount | src/main/java/com/nisovin/shopkeepers/util/ItemUtils.java:246-251 | null stays null; otherwise the copy is similar to the original and has the requested amount |
| Items.IncreaseItemAmount | src/main/java/com/nisovin/shopkeepers/util/ItemUtils.java:289-295 | empty input gives null; a result is similar to the input, with an amount from 1 to the max stack size |
| Items.DecreaseItemAmount | src/main/java/com/nisovin/shopkeepers/util/ItemUtils.java:309-311 | same bounds as increase, for the negated delta |
| Items.IncreaseWithoutOverflow | src/main/java/com/nisovin/shopkeepers/util/ItemUtils.java:289-295 | without overflow the new amount is min(amount + delta, max stack size), and null when that is not positive |
| Items.IncreaseDecreaseRoundTrip | src/main/java/com/nisovin/shopkeepers/util/ItemUtils.java:289-311 | decreasing by the amount just added, below the cap, restores the stack |
| Items.IncreaseOverflowEmpties | src/main/java/com/nisovin/shopkeepers/util/ItemUtils.java:290-292 | increasing a stack of 1 by Integer.MAX_VALUE wraps negative, so the result is null |
| Values.HasKeyIndex | src/main/java/com/nisovin/shopkeepers/util/ItemUtils.java:685-690 | containsKey holds iff some entry carries the key |
| Values.Get | src/main/java/com/nisovin/shopkeepers/util/ItemUtils.java:687 | Map.get of a missing key is null |
| Values.Put | src/main/java/com/nisovin/shopkeepers/util/ItemData.java:322-356 | LinkedHashMap.put keeps the key order and appends a new key at the end |
| Values.PutGet | src/main/java/com/nisovin/shopkeepers/util/ItemData.java:322-356 | after put, get of that key gives the new value and every other key is unaffected |
| Values.PutHasKey | src/main/java/com/nisovin/shopkeepers/util/ItemData.java:322-356 | after put, the key set is the old one plus the key |
| Values.PutUnique | src/main/java/com/nisovin/shopkeepers/util/ItemData.java:322-356 | put keeps keys unique |
| Values.GetOfUniqueEntry | src/main/java/com/nisovin/shopkeepers/util/ItemUtils.java:687 | with unique keys, get returns an entry's own value |
| Values.GetWitness | src/main/java/com/nisovin/shopkeepers/util/ItemUtils.java:687 | a present key's value is the value of some entry with that key |
| Values.EqualReflexive | src/main/java/com/nisovin/shopkeepers/util/ItemUtils.java:724 | Java equals of a well-formed value with itself holds |
| Values.EqualTransitive | src/main/java/com/nisovin/shopkeepers/util/ItemUtils.java:724 | Java equals on values is transitive |
| Values.MapEqualityIgnoresOrder | src/main/java/com/nisovin/shopkeepers/util/ItemUtils.java:724 | two maps with distinct keys holding the same entries, in any order, are equal |
| ItemMatching.EqualImpliesMatches | src/main/java/com/nisovin/shopkeepers/util/ItemUtils.java:676-725 | a target equal to the requirement matches it in both list modes, so the identity shortcut at 677 never changes the answer |
| ItemMatching.MatchesReflexive | src/main/java/com/nisovin/shopkeepers/util/ItemUtils.java:676-725 | every well-formed value matches itself |
| ItemMatching.MatchesTransitive | src/main/java/com/nisovin/shopkeepers/util/ItemUtils.java:676-725 | containment is transitive |
| ItemMatching.StrictImpliesPartial | src/main/java/com/nisovin/shopkeepers/util/ItemUtils.java:696-724 | a strict match is also a partial-list match |
| ItemMatching.ExtraTargetKeysIgnored | src/main/java/com/nisovin/shopkeepers/util/ItemUtils.java:682-693 | adding a key the requirement does not mention to the target never changes the answer |
| ItemMatching.MatchingNotSymmetric | src/main/java/com/nisovin/shopkeepers/util/ItemUtils.java:682-693 | a richer map contains a poorer one, but not the other way round |
| ItemMatching.PartialListsIgnoreDuplicates | src/main/java/com/nisovin/shopkeepers/util/ItemUtils.java:696-721 | `[a, a]` is partially contained in `[a, b]` because target elements are reused; the strict mode rejects it |
| ItemMatching.LongerRequiredListFails | src/main/java/com/nisovin/shopkeepers/util/ItemUtils.java:705-707 | a required list longer than the target never matches in either mode |
| ItemMatching.MatchesDataByKey | src/main/java/com/nisovin/shopkeepers/util/ItemUtils.java:682-693 | a map requirement with distinct keys is met exactly when the target is a map whose value under every required key matches the required value |
| ItemMatching.PartialListsIgnoreTargetOrder | src/main/java/com/nisovin/shopkeepers/util/ItemUtils.java:696-721 | in partial-list mode, reordering the target list never changes the answer |
| ItemMatching.ItemMatchesSelf | src/main/java/com/nisovin/shopkeepers/util/ItemUtils.java:622-631 | every stack (and null) matches itself |
| ItemMatching.ItemMatchesNeedsSameType | src/main/java/com/nisovin/shopkeepers/util/ItemUtils.java:622-631 | a match against a non-null requirement implies a non-null item of the same type |
| ItemMatching.ItemOverloadsAgree | src/main/java/com/nisovin/shopkeepers/util/ItemUtils.java:622-639 | the stack overload and the (type, map) overload agree for a non-empty meta map |
| ItemMatching.ItemMatchingIgnoresAmounts | src/main/java/com/nisovin/shopkeepers/util/ItemUtils.java:622-631 | stack matching gives the same answer whatever the amounts of the item and of the requirement |
| ItemMatching.EmptyDataShortcutAgrees | src/main/java/com/nisovin/shopkeepers/util/ItemUtils.java:633-639 | for an item with meta, the empty-map shortcut changes nothing: the item matches iff it has the given type and its meta contains the map |
| Inventory.SimilarItems | src/main/java/com/nisovin/shopkeepers/util/ItemUtils.java:794-810 | the predicate accepts exactly the stacks similar to the item |
| Inventory.TotalAmountUpdate | src/main/java/com/nisovin/shopkeepers/util/ItemUtils.java:1236-1300 | replacing one slot changes the total by the difference of the two slots' amounts |
| Inventory.MatchingAmountPrefix | src/main/java/com/nisovin/shopkeepers/util/ItemUtils.java:983-997 | a prefix of the slots holds no more matching items than all slots |
| Inventory.MatchingAmountCountsSlot | src/main/java/com/nisovin/shopkeepers/util/ItemUtils.java:983-997 | every matching slot's amount is part of the matching total |
| Inventory.NoMatchingSlots | src/main/java/com/nisovin/shopkeepers/util/ItemUtils.java:983-997 | without matching slots the matching total is 0 |
| Inventory.ContainsAtLeast | src/main/java/com/nisovin/shopkeepers/util/ItemUtils.java:983-997 | true iff amount <= 0, or the contents are non-null and the matching non-empty stacks sum to at least amount |
| Inventory.FillStep | src/main/java/com/nisovin/shopkeepers/util/ItemUtils.java:1260-1269 | topping up one partial stack conserves items, never exceeds the max, and leaves a remainder only when the stack ends full |
| Inventory.FillStepAsWritten | src/main/java/com/nisovin/shopkeepers/util/ItemUtils.java:1260-1269 | the source's int arithmetic; it agrees with FillStep whenever slotAmount + amount does not overflow |
| Inventory.FillStepAsWrittenLosesItems | src/main/java/com/nisovin/shopkeepers/util/ItemUtils.java:1260-1264 | for slot amount 1 and amount Integer.MAX_VALUE the slot gets a negative amount and 0 is returned |
| Inventory.EmptyRoomAfterTopUp | src/main/java/com/nisovin/shopkeepers/util/ItemUtils.java:1242-1296 | topping up partial stacks leaves every empty slot empty, so the second phase finds the room the contents had before |
| Inventory.ToppedUpUntilDetermines | src/main/java/com/nisovin/shopkeepers/util/ItemUtils.java:1245-1264 | the slot state the first phase ends in when it places everything is unique: there is one slot where the last item lands |
| Inventory.FilledUntilDetermines | src/main/java/com/nisovin/shopkeepers/util/ItemUtils.java:1278-1293 | the slot state the second phase ends in when it places everything is unique |
| Inventory.ToppedUpAtChanges | src/main/java/com/nisovin/shopkeepers/util/ItemUtils.java:1245-1264 | when the last item lands in a partial stack, the amount fits the room, only similar partial stacks grew, and empty slots are untouched |
| Inventory.FilledAtChanges | src/main/java/com/nisovin/shopkeepers/util/ItemUtils.java:1278-1293 | when the last item lands in an empty slot, the amount fits the empty room and only empty slots received copies of the item |
| Inventory.AllToppedUpChanges | src/main/java/com/nisovin/shopkeepers/util/ItemUtils.java:1245-1272 | filling every similar partial stack to the max only grows similar partial stacks and keeps empty slots |
| Inventory.TopUpPartialStacks | src/main/java/com/nisovin/shopkeepers/util/ItemUtils.java:1242-1272 | returns the amount beyond the partial stacks' room; when that is 0 the slots are exactly ToppedUpUntil (earlier similar partial stacks full, the last one raised by the rest, the others unchanged), otherwise every similar partial stack is full; empty slots are untouched and the total grows by the placed amount |
| Inventory.FillEmptySlots | src/main/java/com/nisovin/shopkeepers/util/ItemUtils.java:1277-1299 | returns the amount beyond the empty slots' room; when that is 0 the slots are exactly FilledUntil (earlier empty slots full copies, the last one the rest), otherwise every empty slot holds a full copy; the total grows by the placed amount |
| Inventory.BothPhasesChanges | src/main/java/com/nisovin/shopkeepers/util/ItemUtils.java:1242-1296 | after a full first phase and the second phase, every slot changed as addItems may change it, and partial stacks were topped up before any empty slot received items |
| Inventory.LeftoverAfterBothPhases | src/main/java/com/nisovin/shopkeepers/util/ItemUtils.java:1268-1299 | what the second phase returns after the first left items over is the leftover of the whole call, 0 exactly when both rooms together cover the amount |
| Inventory.TopUpOnlyChanges | src/main/java/com/nisovin/shopkeepers/util/ItemUtils.java:1255-1264 | when the first phase places everything, no empty slot changed |
| Inventory.Leftover | src/main/java/com/nisovin/shopkeepers/util/ItemUtils.java:1236-1300 | the amount addItems cannot place lies between 0 and the amount and is 0 exactly when the partial stacks' room plus the empty slots' room covers the amount |
| Inventory.AddBothPhases | src/main/java/com/nisovin/shopkeepers/util/ItemUtils.java:1242-1299 | for a positive amount: the result is the leftover; the slots are topped up as ToppedUpUntil when the partial stacks have room, filled as FilledUntil after topping up everything when the empty slots have room, and all full otherwise; the total grows by the placed amount |
| Inventory.AddItems | src/main/java/com/nisovin/shopkeepers/util/ItemUtils.java:1236-1300 | a negative amount fails and 0 changes nothing; otherwise as AddBothPhases: the returned leftover, the exact new contents in each case, the total, and partial stacks before empty slots |
| Inventory.RemovedUntilDetermines | src/main/java/com/nisovin/shopkeepers/util/ItemUtils.java:1373-1397 | the slot state removeItems ends in when it takes everything is unique: there is one slot where the last item is taken |
| Inventory.RemovedAtChanges | src/main/java/com/nisovin/shopkeepers/util/ItemUtils.java:1373-1397 | when the last item is taken from a slot, the amount fits the matching amount, only matching stacks changed, and matching stacks before a changed slot are cleared |
| Inventory.AllClearedChanges | src/main/java/com/nisovin/shopkeepers/util/ItemUtils.java:1380-1381 | clearing every matching stack changes slots only as removeItems may, in slot order |
| Inventory.RemoveMatchingItems | src/main/java/com/nisovin/shopkeepers/util/ItemUtils.java:1372-1400 | for a positive amount: Integer.MAX_VALUE clears every matching stack and returns 0; otherwise the result is the amount beyond the matching amount, the slots are exactly RemovedUntil when that is 0 and all matching stacks are cleared otherwise; the total falls by the removed amount |
| Inventory.RemoveItems | src/main/java/com/nisovin/shopkeepers/util/ItemUtils.java:1366-1400 | a negative amount fails and 0 changes nothing; otherwise as RemoveMatchingItems, with only matching slots changed and in slot order |
| Inventory.ConvertItems | src/main/java/com/nisovin/shopkeepers/util/ItemUtils.java:866-881 | each slot becomes its conversion and the count is the number of converted stacks |
| Inventory.ConvertedCountIsChangedSlots | src/main/java/com/nisovin/shopkeepers/util/ItemUtils.java:866-881 | the returned count equals the number of slots that changed |
| ItemDataFormat.DataItem | src/main/java/com/nisovin/shopkeepers/util/ItemData.java:187-195 | the stored data item always has amount 1 and the template's type |
| ItemDataFormat.OfType | src/main/java/com/nisovin/shopkeepers/util/ItemData.java:162-165 | the template of a bare material is similar to a fresh stack of it |
| ItemDataFormat.FromItemStack | src/main/java/com/nisovin/shopkeepers/util/ItemData.java:187-195 | the template keeps the stack with its amount set to 1 |
| ItemDataFormat.SerializedData | src/main/java/com/nisovin/shopkeepers/util/ItemData.java:215-231 | the serialized data is empty exactly when the meta is empty, otherwise it is the meta map |
| ItemDataFormat.Serialize | src/main/java/com/nisovin/shopkeepers/util/ItemData.java:315-359 | the loop builds exactly the serialized form |
| ItemDataFormat.SerializeEntriesKeepsPrefix | src/main/java/com/nisovin/shopkeepers/util/ItemData.java:322-357 | entries already written (first of all `type`) keep their keys and positions |
| ItemDataFormat.SerializeEntriesGet | src/main/java/com/nisovin/shopkeepers/util/ItemData.java:325-357 | each key kept by the filter gets its exported value; skipped keys are absent |
| ItemDataFormat.SerializedFormShape | src/main/java/com/nisovin/shopkeepers/util/ItemData.java:315-359 | with meta: a map whose first key is `type`, without `meta-type`, with decolorized display name and lore; without meta: the type name |
| ItemDataFormat.CopyOfUniqueIsIdentity | src/main/java/com/nisovin/shopkeepers/util/ItemData.java:72-75 | copying a map with unique keys into a new LinkedHashMap gives the same entries |
| ItemDataFormat.UniqueAfterSerialize | src/main/java/com/nisovin/shopkeepers/util/ItemData.java:322-357 | the serialized map has unique keys |
| ItemDataFormat.PrepareMetaData | src/main/java/com/nisovin/shopkeepers/util/ItemData.java:126-141 | `meta-type` is set to the material's meta type, a string display name and a list lore are colorized, everything else is kept |
| ItemDataFormat.Deserialize | src/main/java/com/nisovin/shopkeepers/util/ItemData.java:57-154 | null gives null; a missing `type` gives MissingItemType; other shapes are rejected; a result has the parsed type |
| ItemDataFormat.TypeOnlyMapIsCompact | src/main/java/com/nisovin/shopkeepers/util/ItemData.java:92-94 | a map holding only `type` deserializes like the bare type name |
| ItemDataFormat.DeserializeTypeName | src/main/java/com/nisovin/shopkeepers/util/ItemData.java:62-65 | a bare string gives a meta-less template of the parsed type, or the matching invalid-type error |
| ItemDataFormat.DeserializeMap | src/main/java/com/nisovin/shopkeepers/util/ItemData.java:67-147 | for a map with a non-null `type` and more than one entry, each of UnknownItemType, LegacyItemType, InvalidItemType, NoMetaSupport and UndeterminedMetaType is returned exactly when its check fails first; otherwise the template of the parsed type with the meta the server builds from the prepared copy of the map |
| ItemDataFormat.RoundTripWithoutMeta | src/main/java/com/nisovin/shopkeepers/util/ItemData.java:57-154 | deserialize(serialize(d)) == d for a meta-less template of a valid item type |
| ItemDataFormat.RoundTripWithMeta | src/main/java/com/nisovin/shopkeepers/util/ItemData.java:57-154 | with meta, deserialize(serialize(d)) restores every kept key and `meta-type`, given that colorize inverts decolorize |
| ItemDataFormat.SerializedCopyIsIdentity | src/main/java/com/nisovin/shopkeepers/util/ItemData.java:72-75 | the copy deserialize makes of a serialized map is that map, order included |
| ItemDataFormat.RoundTripMetaValue | src/main/java/com/nisovin/shopkeepers/util/ItemData.java:126-141 | the prepared meta map read back from the serialized form holds the original value under every kept key and under `meta-type` |
| ItemDataFormat.CreateItemStack | src/main/java/com/nisovin/shopkeepers/util/ItemData.java:239-245 | the created stack has the requested amount and is similar to the data item |
| ItemDataFormat.CreatedStacksAreSimilar | src/main/java/com/nisovin/shopkeepers/util/ItemData.java:239-253 | the template is similar to every stack it creates, and that stack's template is the template again |
| ItemDataFormat.IsSimilarIffSameData | src/main/java/com/nisovin/shopkeepers/util/ItemData.java:247-249 | a stack is similar to the template exactly when the template made from the stack is that template; null is never similar |
| ItemDataFormat.WithType | src/main/java/com/nisovin/shopkeepers/util/ItemData.java:204-212 | a non-item type is rejected; otherwise the result has the new type, and the same type returns the template unchanged |
| ItemDataFormat.MatchesSelf | src/main/java/com/nisovin/shopkeepers/util/ItemData.java:263-281 | a template matches itself and its own data item |
| ItemDataFormat.MatchesChain | src/main/java/com/nisovin/shopkeepers/util/ItemData.java:277-281 | template matching is transitive |
| ItemDataFormat.NoMetaMatchesType | src/main/java/com/nisovin/shopkeepers/util/ItemData.java:263-266 | a meta-less template matches exactly the stacks of its type |
| ItemDataFormat.MatchesItemAgreesWithMatches | src/main/java/com/nisovin/shopkeepers/util/ItemData.java:263-281 | for a stack with meta, matching the stack and matching the template made from it give the same answer |
| TradeOffers.ToTradingRecipe | src/main/java/com/nisovin/shopkeepers/shopkeeper/player/trade/SKTradingPlayerShopkeeper.java:97-100 | the recipe carries the offer's three items and the given stock flag |
| TradeOffers.SKPrefixLength | src/main/java/com/nisovin/shopkeepers/shopkeeper/player/trade/SKTradingPlayerShopkeeper.java:179-182 | the offers before the first non-SKTradeOffer, which `forEach(_addOffer)` adds before it throws |
| TradeOffers.Unwrap | src/main/java/com/nisovin/shopkeepers/shopkeeper/player/trade/SKTradingPlayerShopkeeper.java:143-145 | a list without nulls, element for element |
| TradeOffers.SKPrefixIsWholeIffAllSK | src/main/java/com/nisovin/shopkeepers/shopkeeper/player/trade/SKTradingPlayerShopkeeper.java:162-182 | the whole list is added iff every offer is an SKTradeOffer |
| PriceOffers.NewPriceOffer | src/main/java/com/nisovin/shopkeepers/shopkeeper/offers/SKPriceOffer.java:48-63 | rejects an empty item and a non-positive price with the source's messages; otherwise the getters give the arguments |
| PriceOffers.NatToString | src/main/java/com/nisovin/shopkeepers/shopkeeper/offers/SKPriceOffer.java:105 | String.valueOf of a natural number is a non-empty digit string, one digit below 10 |
| PriceOffers.NatToStringInjective | src/main/java/com/nisovin/shopkeepers/shopkeeper/offers/SKPriceOffer.java:101-108 | distinct ids give distinct section names |
| PriceOffers.GetInt | src/main/java/com/nisovin/shopkeepers/shopkeeper/offers/SKPriceOffer.java:123 | getInt returns an in-range int value and 0 for a missing or non-int value |
| PriceOffers.SaveToConfig | src/main/java/com/nisovin/shopkeepers/shopkeeper/offers/SKPriceOffer.java:100-110 | offers are written in list order under ids "1", "2", …, and no two ids clash |
| PriceOffers.LoadFromConfig | src/main/java/com/nisovin/shopkeepers/shopkeeper/offers/SKPriceOffer.java:113-138 | a missing section gives no offers; otherwise non-sections are skipped, empty items and non-positive prices are skipped with a warning, and the rest are kept in key order |
| PriceOffers.SaveLoadRoundTrip | src/main/java/com/nisovin/shopkeepers/shopkeeper/offers/SKPriceOffer.java:100-138 | loading what was saved gives the same offers and no warnings |
| PriceOffers.StepOf | src/main/java/com/nisovin/shopkeepers/shopkeeper/offers/SKPriceOffer.java:152-160 | an offer is kept iff its migrated item is similar to its item; a replacement is the non-empty migrated item |
| PriceOffers.AnyMigratedSnoc | src/main/java/com/nisovin/shopkeepers/shopkeeper/offers/SKPriceOffer.java:144-181 | some offer migrates iff some earlier one does or the last one does |
| PriceOffers.UnmigratedIsNonNull | src/main/java/com/nisovin/shopkeepers/shopkeeper/offers/SKPriceOffer.java:141-181 | when nothing migrates, the migrated list is the non-null offers |
| PriceOffers.CopyNonNull | src/main/java/com/nisovin/shopkeepers/shopkeeper/offers/SKPriceOffer.java:164-170 | the inner loop copies the non-null offers before position n |
| PriceOffers.MigrateItemsAsWritten | src/main/java/com/nisovin/shopkeepers/shopkeeper/offers/SKPriceOffer.java:141-182 | the source's loop: null gives null, Unchanged iff no offer migrates, failures at their 1-based positions, and otherwise the as-written offer list |
| PriceOffers.MigrateItems | src/main/java/com/nisovin/shopkeepers/shopkeeper/offers/SKPriceOffer.java:141-182 | the corrected loop: the same, with every kept offer copied into the new list |
| PriceOffers.MigrationKeepsPrices | src/main/java/com/nisovin/shopkeepers/shopkeeper/offers/SKPriceOffer.java:155-178 | the result is one offer per surviving input, in order, with its price and its migrated or original item; survivors and failures partition the non-null offers |
| PriceOffers.AsEntries | src/main/java/com/nisovin/shopkeepers/shopkeeper/offers/SKPriceOffer.java:141 | a list of offers as list entries, none of them null |
| PriceOffers.MigratedOffersAreStable | src/main/java/com/nisovin/shopkeepers/shopkeeper/offers/SKPriceOffer.java:151-178 | for a migration that is stable on its outputs, every migrated offer is kept by a second pass |
| PriceOffers.MigrationIdempotent | src/main/java/com/nisovin/shopkeepers/shopkeeper/offers/SKPriceOffer.java:141-182 | for such a migration, migrating the migrated list again reports Unchanged |
| PriceOffers.AsWrittenLosesUnchangedOffers | src/main/java/com/nisovin/shopkeepers/shopkeeper/offers/SKPriceOffer.java:162-179 | an unchanged offer after a migrated one is missing from the as-written result but kept by the corrected one |
| BookOffers.NewBookOffer | src/main/java/com/nisovin/shopkeepers/shopkeeper/offers/BookOffer.java:18-32 | rejects a null title and a non-positive price with the source's messages; an empty title is accepted; the getters give the arguments |
| BookOffers.SaveToConfig | src/main/java/com/nisovin/shopkeepers/shopkeeper/offers/BookOffer.java:38-43 | each offer sets its title to its price; the section keys remain unique |
| BookOffers.LoadFromConfig | src/main/java/com/nisovin/shopkeepers/shopkeeper/offers/BookOffer.java:45-56 | a missing section gives no offers; otherwise entries with a non-positive price are skipped and the rest kept in key order |
| BookOffers.SavedSectionKeys | src/main/java/com/nisovin/shopkeepers/shopkeeper/offers/BookOffer.java:38-43 | the saved keys are exactly the offers' titles |
| BookOffers.SaveLoadRoundTrip | src/main/java/com/nisovin/shopkeepers/shopkeeper/offers/BookOffer.java:38-56 | with distinct titles, loading what was saved gives the same offers |
| BookOffers.LastDuplicateWins | src/main/java/com/nisovin/shopkeepers/shopkeeper/offers/BookOffer.java:38-43 | a title's saved price is that of its last offer |
| TradingPlayerShopkeeper.TradingShopkeeper.constructor | src/main/java/com/nisovin/shopkeepers/shopkeeper/player/trade/SKTradingPlayerShopkeeper.java:30 | a new shopkeeper has no offers and is not dirty |
| TradingPlayerShopkeeper.TradingShopkeeper.GetOffers | src/main/java/com/nisovin/shopkeepers/shopkeeper/player/trade/SKTradingPlayerShopkeeper.java:108-110 | the view shows the offers in order, all SKTradeOffers |
| TradingPlayerShopkeeper.TradingShopkeeper.GetTradingRecipes | src/main/java/com/nisovin/shopkeepers/shopkeeper/player/trade/SKTradingPlayerShopkeeper.java:92-103 | one recipe per offer, in order, out of stock iff the container lacks the result amount of similar items |
| TradingPlayerShopkeeper.TradingShopkeeper.HasOffer | src/main/java/com/nisovin/shopkeepers/shopkeeper/player/trade/SKTradingPlayerShopkeeper.java:112-120 | true iff some offer's result item is similar to the argument |
| TradingPlayerShopkeeper.TradingShopkeeper.GetOffer | src/main/java/com/nisovin/shopkeepers/shopkeeper/player/trade/SKTradingPlayerShopkeeper.java:122-129 | the first offer whose items equal the recipe, or null when there is none |
| TradingPlayerShopkeeper.TradingShopkeeper.ClearOffers | src/main/java/com/nisovin/shopkeepers/shopkeeper/player/trade/SKTradingPlayerShopkeeper.java:132-139 | no offers remain and the shopkeeper is dirty |
| TradingPlayerShopkeeper.TradingShopkeeper.AddOffersUnchecked | src/main/java/com/nisovin/shopkeepers/shopkeeper/player/trade/SKTradingPlayerShopkeeper.java:162-182 | appends the SKTradeOffer prefix of the list and fails at the first other offer |
| TradingPlayerShopkeeper.TradingShopkeeper.SetOffers | src/main/java/com/nisovin/shopkeepers/shopkeeper/player/trade/SKTradingPlayerShopkeeper.java:142-153 | a null list or null elements are rejected with no change; otherwise the offers are replaced by the list in order and the shopkeeper is dirty |
| TradingPlayerShopkeeper.TradingShopkeeper.SetOffersUnchecked | src/main/java/com/nisovin/shopkeepers/shopkeeper/player/trade/SKTradingPlayerShopkeeper.java:149-153 | clear, then add: the offers become the SKTradeOffer prefix of the list |
| TradingPlayerShopkeeper.TradingShopkeeper.AddOffer | src/main/java/com/nisovin/shopkeepers/shopkeeper/player/trade/SKTradingPlayerShopkeeper.java:156-169 | null is rejected; a non-SKTradeOffer is rejected; otherwise exactly that offer is appended and the shopkeeper is dirty |
| TradingPlayerShopkeeper.TradingShopkeeper.AddOffers | src/main/java/com/nisovin/shopkeepers/shopkeeper/player/trade/SKTradingPlayerShopkeeper.java:172-182 | null or null elements are rejected with no change; otherwise the offers are appended in order and the shopkeeper is dirty |
| TradingPlayerShopkeeper.TradingShopkeeper.LoadFromSaveData | src/main/java/com/nisovin/shopkeepers/shopkeeper/player/trade/SKTradingPlayerShopkeeper.java:67-77 | dirty is set iff migration returned another list; that list (or the loaded one) is installed |
| TradingPlayerShopkeeper.InStockWithSufficientSlot | src/main/java/com/nisovin/shopkeepers/shopkeeper/player/trade/SKTradingPlayerShopkeeper.java:98 | one similar stack holding the result amount keeps the recipe in stock |
| TradingPlayerShopkeeper.OutOfStockWithoutSimilarStacks | src/main/java/com/nisovin/shopkeepers/shopkeeper/player/trade/SKTradingPlayerShopkeeper.java:98 | without similar stacks the recipe is out of stock iff the result amount is positive |
| RegularAdminShopkeeper.AdminShopkeeper.constructor | src/main/java/com/nisovin/shopkeepers/shopkeeper/admin/regular/SKRegularAdminShopkeeper.java:27 | a new shopkeeper has no offers and is not dirty |
| RegularAdminShopkeeper.AdminShopkeeper.GetOffers | src/main/java/com/nisovin/shopkeepers/shopkeeper/admin/regular/SKRegularAdminShopkeeper.java:95-98 | the view shows the offers in order, all SKTradeOffers |
| RegularAdminShopkeeper.AdminShopkeeper.GetTradingRecipes | src/main/java/com/nisovin/shopkeepers/shopkeeper/admin/regular/SKRegularAdminShopkeeper.java:85-91 | one in-stock recipe per offer, in order, with the offer's items |
| RegularAdminShopkeeper.AdminShopkeeper.ClearOffers | src/main/java/com/nisovin/shopkeepers/shopkeeper/admin/regular/SKRegularAdminShopkeeper.java:100-108 | no offers remain and the shopkeeper is dirty |
| RegularAdminShopkeeper.AdminShopkeeper.AddOffersUnchecked | src/main/java/com/nisovin/shopkeepers/shopkeeper/admin/regular/SKRegularAdminShopkeeper.java:131-151 | appends the SKTradeOffer prefix of the list and fails at the first other offer |
| RegularAdminShopkeeper.AdminShopkeeper.SetOffers | src/main/java/com/nisovin/shopkeepers/shopkeeper/admin/regular/SKRegularAdminShopkeeper.java:110-122 | a null list or null elements are rejected with no change; otherwise the offers are replaced by the list and the shopkeeper is dirty |
| RegularAdminShopkeeper.AdminShopkeeper.SetOffersUnchecked | src/main/java/com/nisovin/shopkeepers/shopkeeper/admin/regular/SKRegularAdminShopkeeper.java:118-122 | clear, then add: the offers become the SKTradeOffer prefix of the list |
| RegularAdminShopkeeper.AdminShopkeeper.AddOffer | src/main/java/com/nisovin/shopkeepers/shopkeeper/admin/regular/SKRegularAdminShopkeeper.java:124-138 | null is rejected; a non-SKTradeOffer is rejected; otherwise exactly that offer is appended and the shopkeeper is dirty |
| RegularAdminShopkeeper.AdminShopkeeper.AddOffers | src/main/java/com/nisovin/shopkeepers/shopkeeper/admin/regular/SKRegularAdminShopkeeper.java:140-151 | null or null elements are rejected with no change; otherwise the offers are appended in order and the shopkeeper is dirty |
| RegularAdminShopkeeper.AdminShopkeeper.LoadFromSaveData | src/main/java/com/nisovin/shopkeepers/shopkeeper/admin/regular/SKRegularAdminShopkeeper.java:60-71 | dirty is set iff migration returned another list; that list (or the loaded one) is installed |
| Utils.IndexOf | src/main/java/com/nisovin/shopkeepers/util/Utils.java:57-77 | -1 iff the element is absent, otherwise the index of its first occurrence |
| Utils.ReplaceFirstChangesOnlyFirst | src/main/java/com/nisovin/shopkeepers/util/Utils.java:57-77 | replacing keeps the length, changes nothing when the element is absent, and otherwise changes only its first occurrence |
| Utils.Replace | src/main/java/com/nisovin/shopkeepers/util/Utils.java:57-77 | true iff the element occurs; the list becomes the list with its first occurrence replaced |
| Utils.AsList | src/main/java/com/nisovin/shopkeepers/util/Utils.java:91-94 | null gives an empty list; otherwise the array's elements in order |
| Utils.FindFirst | src/main/java/com/nisovin/shopkeepers/util/Utils.java:148-156 | the first accepted element, or none when no element is accepted |
| Utils.Contains | src/main/java/com/nisovin/shopkeepers/util/Utils.java:169-177 | true iff some element is accepted |
| Utils.Concat | src/main/java/com/nisovin/shopkeepers/util/Utils.java:181-190 | a null array gives the other one; otherwise a new array of both lengths with the first as prefix and the second as suffix |
| LazyValue.Lazy.constructor | src/main/java/com/nisovin/shopkeepers/util/Lazy.java:25-28 | a new lazy value holds the supplier and is not yet calculated |
| LazyValue.Lazy.Get | src/main/java/com/nisovin/shopkeepers/util/Lazy.java:35-43 | returns the supplier's value; the supplier runs only on the first call, so the call count ends at 1 |
| LazyValue.NewLazy | src/main/java/com/nisovin/shopkeepers/util/Lazy.java:25-28 | a null supplier is rejected with "supplier is null" |
| LazyValue.NullResultIsCached | src/main/java/com/nisovin/shopkeepers/util/Lazy.java:36-40 | two gets of a null-returning supplier both give null and the supplier runs once |
| MessageArguments.Get | src/main/java/com/nisovin/shopkeepers/util/text/CommonMessageArguments.java:19-60 | map lookup; the first non-null of two sources; null for keys without the prefix, otherwise lookup of the stripped key |
| MessageArguments.NewMapArguments | src/main/java/com/nisovin/shopkeepers/util/text/CommonMessageArguments.java:13-17 | a null map is rejected |
| MessageArguments.NewCombined | src/main/java/com/nisovin/shopkeepers/util/text/CommonMessageArguments.java:29-34 | a null first or second source is rejected with its own message |
| MessageArguments.NewPrefixed | src/main/java/com/nisovin/shopkeepers/util/text/CommonMessageArguments.java:48-53 | null arguments or a null prefix are rejected |
| MessageArguments.CombinedMapsAreUnion | src/main/java/com/nisovin/shopkeepers/util/text/CommonMessageArguments.java:37-40 | combining two maps is a lookup in their union where the first wins over the second for non-null values |
| MessageArguments.CombinedAssociative | src/main/java/com/nisovin/shopkeepers/util/text/CommonMessageArguments.java:37-40 | combining is associative |
| MessageArguments.EmptyMapIsNeutral | src/main/java/com/nisovin/shopkeepers/util/text/CommonMessageArguments.java:37-40 | an empty map is a neutral element on both sides |
| MessageArguments.EmptyPrefixIsIdentity | src/main/java/com/nisovin/shopkeepers/util/text/CommonMessageArguments.java:56-60 | the empty prefix changes nothing |
| MessageArguments.NestedPrefixes | src/main/java/com/nisovin/shopkeepers/util/text/CommonMessageArguments.java:56-60 | prefixing twice equals prefixing once with the concatenated prefix |
| Texts.Text.constructor | src/main/java/com/nisovin/shopkeepers/text/AbstractText.java:22-32 | a new text has no parent, child or next |
| Texts.Text.SetChild | src/main/java/com/nisovin/shopkeepers/text/AbstractText.java:82-92 | rejects itself and a child that already has a parent, changing nothing; otherwise the old child loses its parent, the new child's parent is this, and child is the new child |
| Texts.Text.SetNext | src/main/java/com/nisovin/shopkeepers/text/AbstractText.java:109-119 | the same contract for next |
| Texts.Text.GetRoot | src/main/java/com/nisovin/shopkeepers/text/AbstractText.java:57-65 | returns the last ancestor on the parent chain, which has no parent |
| Texts.AppendPlainText | src/main/java/com/nisovin/shopkeepers/text/AbstractText.java:189-201 | appends the text's own plain text, then its child's, then its next's |
| Texts.PlainTextEmptyIff | src/main/java/com/nisovin/shopkeepers/text/AbstractText.java:189-233 | isPlainTextEmpty holds iff the appended plain text is empty |
| Texts.PlainTextIffAllPlain | src/main/java/com/nisovin/shopkeepers/text/AbstractText.java:204-217 | isPlainText holds iff every text reachable through child and next is plain |
| LivingEntityObjectTypes.GetAliases | src/main/java/com/nisovin/shopkeepers/shopobjects/living/SKLivingEntityObjectTypes.java:80-126 | "mooshroom" for MUSHROOM_COW, no aliases for any other type |
| LivingEntityObjectTypes.LowerChar | src/main/java/com/nisovin/shopkeepers/shopobjects/living/SKLivingEntityObjectTypes.java:139-140 | ASCII upper-case letters are lowered and other characters are kept |
| LivingEntityObjectTypes.ToLower | src/main/java/com/nisovin/shopkeepers/shopobjects/living/SKLivingEntityObjectTypes.java:139-140 | lower-cases character by character |
| LivingEntityObjectTypes.CreateObjectType | src/main/java/com/nisovin/shopkeepers/shopobjects/living/SKLivingEntityObjectTypes.java:138-140 | identifier is the lower-case type name; permission is "shopkeeper.entity." followed by it |
| LivingEntityObjectTypes.PermissionsDistinct | src/main/java/com/nisovin/shopkeepers/shopobjects/living/SKLivingEntityObjectTypes.java:138-140 | two distinct enum names without lower-case letters get distinct permissions |
| LivingEntityObjectTypes.ValueOf | src/main/java/com/nisovin/shopkeepers/shopobjects/living/SKLivingEntityObjectTypes.java:98-106 | finds the enum value of that name, or reports that there is none |
| LivingEntityObjectTypes.KeysOf | src/main/java/com/nisovin/shopkeepers/shopobjects/living/SKLivingEntityObjectTypes.java:93 | the registry's keys in insertion order |
| LivingEntityObjectTypes.KeyIndex | src/main/java/com/nisovin/shopkeepers/shopobjects/living/SKLivingEntityObjectTypes.java:134-136 | the position of a registered key |
| LivingEntityObjectTypes.LivingEntityObjectTypeRegistry.constructor | src/main/java/com/nisovin/shopkeepers/shopobjects/living/SKLivingEntityObjectTypes.java:96-120 | the two loops build exactly the registry of the ordering rule |
| LivingEntityObjectTypes.LivingEntityObjectTypeRegistry.GetObjectType | src/main/java/com/nisovin/shopkeepers/shopobjects/living/SKLivingEntityObjectTypes.java:134-136 | null iff the type is not registered, otherwise its registered object type |
| LivingEntityObjectTypes.DedupElements | src/main/java/com/nisovin/shopkeepers/shopobjects/living/SKLivingEntityObjectTypes.java:109 | removing later duplicates keeps every element |
| LivingEntityObjectTypes.RegisterKeys | src/main/java/com/nisovin/shopkeepers/shopobjects/living/SKLivingEntityObjectTypes.java:109-117 | registering an existing key changes nothing, and a new key is appended |
| LivingEntityObjectTypes.EnabledRegistryOrder | src/main/java/com/nisovin/shopkeepers/shopobjects/living/SKLivingEntityObjectTypes.java:97-111 | the first loop registers the enabled eligible types in config order, each once at its first position |
| LivingEntityObjectTypes.CompletedRegistryOrder | src/main/java/com/nisovin/shopkeepers/shopobjects/living/SKLivingEntityObjectTypes.java:113-119 | the second loop appends the remaining eligible types in enum order |
| LivingEntityObjectTypes.RegistrationOrder | src/main/java/com/nisovin/shopkeepers/shopobjects/living/SKLivingEntityObjectTypes.java:96-120 | enabled types come first in config order, then all remaining eligible types in enum order, each once |
| LivingEntityObjectTypes.RemainingElements | src/main/java/com/nisovin/shopkeepers/shopobjects/living/SKLivingEntityObjectTypes.java:113-119 | the remaining types are the eligible enum types not yet registered |
| LivingEntityObjectTypes.EnabledTypesAreEligible | src/main/java/com/nisovin/shopkeepers/shopobjects/living/SKLivingEntityObjectTypes.java:99-107 | only known, alive and spawnable types are taken from the config; null and unknown names are skipped |
| LivingEntityObjectTypes.RegisteredTypes | src/main/java/com/nisovin/shopkeepers/shopobjects/living/SKLivingEntityObjectTypes.java:96-120 | a type is registered iff it is an alive and spawnable enum value |

## Left out

- Bukkit item internals are parameters. `serializeItemMeta` and its ConfigurationSerialization are left out: meta is represented directly by its serialization. Also left out are `deserializeItemMeta`, `migrateItemStack` and its dummy inventory, `convertItem`, and the item factory's `asMetaFor`/`equals` for `blockMaterial`. They are foreign library calls.
- TextUtils colorize/decolorize and `MinecraftEnumUtils.normalizeEnumName`/`parseMaterial` are uninterpreted `Host` functions, because their source is not part of this model.
- Null arguments that the source rejects with `Validate.notNull` on ItemUtils helpers (contents, item, predicate) are excluded by the types. The model uses `Option` only where null is a meaningful input.
- Items.IncreaseItemAmount: returns the new stack instead of mutating the argument in place. Stacks are values here, so aliasing of the caller's stack is not captured.
- Inventory.AddItems: `item.copy()` versus cloning of the slot stack is not distinguished. Stacks are values.
- ItemMatching.MatchesData: the `target == data` identity shortcut is not a separate test. EqualImpliesMatches shows it never changes the result.
- The `convertSectionsToMaps` step of deserialization is left out. Configuration sections and maps are one `Map` value here.
- ItemDataFormat.SerializedData: the lazily cached `serializedData` field is a pure function of the data item. The cache only avoids recomputation.
- The ItemData constructors that take a display name and lore are left out, because they go through `ItemUtils.createItemStack` with Bukkit meta calls.
- ItemData `toString`, `hashCode`, `equals` and `clone` are left out. Equality of the datatype replaces them.
- BookOffers.SaveToConfig: a '.' in a book title, which Bukkit treats as a path separator, is not modelled. Keys are flat strings.
- BookOffers.LoadFromConfig: the `bookTitle == null` check of the source cannot fail on a key and is not modelled.
- PriceOffers.LoadFromConfig: `getItemStack("item")` is given as an already decoded optional stack per section.
- SKTradeOffer's own `loadFromConfig`, `migrateItems`, `toTradingRecipe` details and `areItemsEqual` are not part of this model. The shopkeepers' load methods receive the loaded list and the migration result as parameters, and GetOffer receives `areItemsEqual`.
- TradingPlayerShopkeeper.TradingShopkeeper.GetTradingRecipes: the container lookup `getContainerContents` is a parameter (an array, empty when the container is missing).
- TradingPlayerShopkeeper.TradingShopkeeper.SetOffers: the new offers arrive as a value, so passing the shopkeeper's own unmodifiable view (`setOffers(getOffers())`) keeps the offers here. In the source, `_setOffers` clears the backing list before copying from the view, which is then empty, so the shopkeeper ends with no offers.
- RegularAdminShopkeeper.AdminShopkeeper.SetOffers: the same aliasing through the offers view is not captured, for the same reason.
- The shopkeepers' `setup`, `save`, UI handlers and the `markDirty` propagation to the shopkeeper storage are left out. Dirty is a field.
- Texts.PlainTextEmptyIff: isPlainText, isPlainTextEmpty and appendPlainText are proved on a value tree (TextTree) rather than on the linked Text objects, and the subclasses' own text and plainness are fields of that tree.
- Texts.AppendPlainText: the `formatText` flag of `appendPlainText` is not a parameter. Each node's `ownText` field is the text that node appends for the flag value in question.
- Texts.Text.GetRoot: requires a finite parent chain given as a ghost sequence, because setChild/setNext do not rule out cycles.
- Texts.Text.SetChild: requires the current child link to be consistent (its parent is this), which the source keeps but does not check.
- Utils.FindFirst: returns an Option, so a found null element is distinguished from "not found", unlike the source's null result.
- Utils.AsList: `Arrays.asList` returns a view backed by the array. The model returns a copy of its contents, so later writes through the view are not captured.
- The other Utils helpers (world, location, ray tracing, reflection, listener printing, sort, addAll, stream) are left out. They are floating point, world API or plumbing.
- LivingEntityObjectTypes.ToLower: Java's Unicode `toLowerCase` is replaced by ASCII lowering. Enum names are ASCII.
- LivingEntityObjectTypes.GetAliases: the alias is assumed to be unchanged by `StringUtils.normalize`, which is not part of this model.
- The `EntityType` enum values and their isAlive/isSpawnable flags are a parameter sequence.
- The per-type object type subclasses (villager, creeper, cat, …) are left out; one generic object type is created per entity type.
- LazyValue.Lazy.Get: the supplier is a pure function, and its number of invocations is a ghost counter. Side effects of a real supplier are not captured.
- Lazy `toString` is left out. It is formatting only.
- The ItemUtils material switch tables, formatting helpers, inventory scheduler and viewer code, and the `Iterable` overloads of containsAtLeast are left out. They are trivial mappings, deferred tasks or duplicates of the array overloads.
- Logging (`Log.warning`, `Log.debug`) becomes warning values where the source reports a skipped entry; everything else is left out.

## Findings

| source | as written | input that shows it | evidently intended | confidence | as-written member | corrected member |
|---|---|---|---|---|---|---|
| src/main/java/com/nisovin/shopkeepers/util/ItemUtils.java:1260-1264 | `int newAmount = slotAmount + amount` overflows for large amounts. The negative sum passes `newAmount <= maxStackSize`, so the slot gets a negative amount and 0 is returned. | a similar stack of 1 (max 64) and amount Integer.MAX_VALUE | fill the stack to its max stack size and carry amount - (max - slotAmount) on | not executed; follows from Java int arithmetic | Inventory.FillStepAsWritten, Inventory.FillStepAsWrittenLosesItems | Inventory.FillStep, used by Inventory.TopUpPartialStacks and Inventory.AddItems |
| src/main/java/com/nisovin/shopkeepers/shopkeeper/offers/SKPriceOffer.java:162-179 | once the new list exists, only migrated offers are added to it; an unchanged offer after the first migrated one is dropped | offers [GRASS_BLOCK@5, DIRT@7] where only GRASS_BLOCK migrates (to STONE): the result is [STONE@5] | every non-failed offer is kept, migrated or not: [STONE@5, DIRT@7] | not executed; follows from the loop's branches | PriceOffers.MigrateItemsAsWritten, PriceOffers.AsWrittenLosesUnchangedOffers | PriceOffers.MigrateItems, with PriceOffers.MigrationKeepsPrices and PriceOffers.MigrationIdempotent |
