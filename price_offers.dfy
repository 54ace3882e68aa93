/**
 * Price offers (an item sold or bought for a price) of the player shops:
 * validation, their config form, and item migration of offer lists.
 */
module PriceOffers {
  import opened Wrappers
  import opened Values
  import opened Items
  import opened TradeOffers

  datatype PriceOfferData = PriceOffer(item: ItemStack, price: int32)

  /** An SKPriceOffer: its item is not empty and its price is positive. */
  type SKPriceOffer = o: PriceOfferData | !IsEmpty(Some(o.item)) && o.price > 0
    witness PriceOffer(ItemStack(Material("STONE", true, false, 64, true, Str("UNSPECIFIC")), 1, Null), 1)

  /** new SKPriceOffer(item, price): rejects an empty item, then a price that is not positive. */
  function NewPriceOffer(item: Option<ItemStack>, price: int32): (r: Result<SKPriceOffer, string>)
    ensures r.Success? <==> !IsEmpty(item) && price > 0
    ensures r.Success? ==> r.value.item == item.value && r.value.price == price
    ensures IsEmpty(item) ==> r == Failure("item is empty")
    ensures !IsEmpty(item) && price <= 0 ==> r == Failure("price has to be positive")
  {
    if IsEmpty(item) then Failure("item is empty")
    else if price <= 0 then Failure("price has to be positive")
    else Success(PriceOffer(item.value, price))
  }

  // ---------------------------------------------------------------------
  // Config form

  /** Java's String.valueOf for a non-negative int. */
  function NatToString(n: nat): (s: string)
    ensures |s| >= 1
    ensures |s| == 1 <==> n < 10
    decreases n
  {
    if n < 10 then [DigitChar(n)] else NatToString(n / 10) + [DigitChar(n % 10)]
  }

  function DigitChar(d: nat): char
    requires d < 10
  {
    "0123456789"[d]
  }

  /** Distinct ids have distinct decimal strings, so the saved offer sections never collide. */
  lemma {:induction false} NatToStringInjective(a: nat, b: nat)
    requires NatToString(a) == NatToString(b)
    ensures a == b
    decreases a
  {
    if a >= 10 && b >= 10 {
      var sa := NatToString(a);
      assert sa[..|sa| - 1] == NatToString(a / 10);
      assert NatToString(b)[..|sa| - 1] == NatToString(b / 10);
      NatToStringInjective(a / 10, b / 10);
      assert DigitChar(a % 10) == sa[|sa| - 1] == DigitChar(b % 10);
    }
  }

  /** One entry of an offers section: an offer section, or a value that is not a section. */
  datatype OfferNode =
    | OfferSection(item: Option<ItemStack>, price: Value)
    | NotASection(v: Value)

  /** ConfigurationSection.getInt: a number converted to int, 0 for anything else. */
  function GetInt(v: Value): (r: int32)
    ensures v.Int? && MIN_INT <= v.i <= MAX_INT ==> r == v.i
    ensures !v.Int? ==> r == 0
  {
    if v.Int? then Wrap32(v.i) else 0
  }

  /** The offers section saveToConfig writes: ids "1", "2", ... in list order. */
  function SavedOffers(offers: seq<SKPriceOffer>): seq<(string, OfferNode)> {
    seq(|offers|, i requires 0 <= i < |offers| =>
      (NatToString(i + 1), OfferSection(Some(offers[i].item), Int(offers[i].price))))
  }

  /** saveToConfig: one section per offer, holding its item and price, under consecutive ids from 1. */
  method SaveToConfig(offers: seq<SKPriceOffer>) returns (offersSection: seq<(string, OfferNode)>)
    ensures offersSection == SavedOffers(offers)
    ensures forall i, j :: 0 <= i < j < |offersSection| ==> offersSection[i].0 != offersSection[j].0
  {
    offersSection := [];
    var id := 1;
    for i := 0 to |offers|
      invariant id == i + 1
      invariant offersSection == SavedOffers(offers[..i])
    {
      var offer := offers[i];
      offersSection := offersSection + [(NatToString(id), OfferSection(Some(offer.item), Int(offer.price)))];
      id := id + 1;
    }
    assert offers[..|offers|] == offers;
    forall i, j | 0 <= i < j < |offersSection| ensures offersSection[i].0 != offersSection[j].0 {
      if offersSection[i].0 == offersSection[j].0 {
        NatToStringInjective(i + 1, j + 1);
      }
    }
  }

  /** A warning loadFromConfig logs for an invalid offer, with its id. */
  datatype LoadWarning = EmptyItem(id: string) | NonPositivePrice(id: string, price: int32)

  /** The offer one section entry yields, if any. */
  function LoadOffer(entry: (string, OfferNode)): Option<SKPriceOffer> {
    match entry.1
    case NotASection(_) => None
    case OfferSection(item, priceData) =>
      var price := GetInt(priceData);
      if IsEmpty(item) || price <= 0 then None else Some(PriceOffer(item.value, price))
  }

  /** The warning one section entry causes, if any. */
  function LoadWarningOf(entry: (string, OfferNode)): seq<LoadWarning> {
    match entry.1
    case NotASection(_) => []
    case OfferSection(item, priceData) =>
      if IsEmpty(item) then [EmptyItem(entry.0)]
      else if GetInt(priceData) <= 0 then [NonPositivePrice(entry.0, GetInt(priceData))]
      else []
  }

  /** The offers loadFromConfig reads from the entries, in key order. */
  function LoadedOffers(entries: seq<(string, OfferNode)>): seq<SKPriceOffer> {
    if |entries| == 0 then []
    else
      var last := LoadOffer(entries[|entries| - 1]);
      LoadedOffers(entries[..|entries| - 1]) + if last.Some? then [last.value] else []
  }

  /** The warnings loadFromConfig logs for the entries, in key order. */
  function LoadWarnings(entries: seq<(string, OfferNode)>): seq<LoadWarning> {
    if |entries| == 0 then []
    else LoadWarnings(entries[..|entries| - 1]) + LoadWarningOf(entries[|entries| - 1])
  }

  /**
   * loadFromConfig: the valid offers of the section in key order; entries
   * that are not sections are skipped silently, empty items and prices that
   * are not positive with a warning. A missing section yields no offers.
   */
  method LoadFromConfig(offersSection: Option<seq<(string, OfferNode)>>)
    returns (offers: seq<SKPriceOffer>, warnings: seq<LoadWarning>)
    ensures offersSection.None? ==> offers == [] && warnings == []
    ensures offersSection.Some? ==>
      offers == LoadedOffers(offersSection.value) && warnings == LoadWarnings(offersSection.value)
  {
    offers := [];
    warnings := [];
    if offersSection.None? {
      return;
    }
    var entries := offersSection.value;
    for i := 0 to |entries|
      invariant offers == LoadedOffers(entries[..i])
      invariant warnings == LoadWarnings(entries[..i])
    {
      assert entries[..i + 1][..i] == entries[..i];
      var (id, node) := entries[i];
      if node.NotASection? {
        continue;
      }
      var item := node.item;
      var price := GetInt(node.price);
      if IsEmpty(item) {
        warnings := warnings + [EmptyItem(id)];
        continue;
      }
      if price <= 0 {
        warnings := warnings + [NonPositivePrice(id, price)];
        continue;
      }
      offers := offers + [PriceOffer(item.value, price)];
    }
    assert entries[..|entries|] == entries;
  }

  /** Loading what saveToConfig wrote gives back the same offers, without warnings. */
  lemma {:induction false} SaveLoadRoundTrip(offers: seq<SKPriceOffer>)
    ensures LoadedOffers(SavedOffers(offers)) == offers
    ensures LoadWarnings(SavedOffers(offers)) == []
    decreases |offers|
  {
    if |offers| > 0 {
      var p := offers[..|offers| - 1];
      var saved := SavedOffers(offers);
      assert saved[..|saved| - 1] == SavedOffers(p);
      SaveLoadRoundTrip(p);
      assert p + [offers[|offers| - 1]] == offers;
    }
  }

  // ---------------------------------------------------------------------
  // Item migration

  /** What item migration does to one offer. */
  datatype MigrationStep = Keep | Replace(item: ItemStack) | Drop

  /**
   * An offer whose migrated item is similar stays as it is; one whose item
   * migrates to an empty stack is dropped; otherwise its item is replaced.
   */
  function StepOf(offer: SKPriceOffer, migrate: ItemStack -> Option<ItemStack>): (r: MigrationStep)
    ensures r.Replace? ==> Some(r.item) == migrate(offer.item) && !IsEmpty(Some(r.item))
    ensures r == Keep <==> SimilarOrBothNull(Some(offer.item), migrate(offer.item))
  {
    var migrated := migrate(offer.item);
    if SimilarOrBothNull(Some(offer.item), migrated) then Keep
    else if IsEmpty(migrated) && !IsEmpty(Some(offer.item)) then Drop
    else Replace(migrated.value)
  }

  /** Some non-null offer's item changes under migration. */
  predicate AnyMigrated(offers: seq<Option<SKPriceOffer>>, migrate: ItemStack -> Option<ItemStack>) {
    exists i :: 0 <= i < |offers| && offers[i].Some? && StepOf(offers[i].value, migrate) != Keep
  }

  /** AnyMigrated, one offer at a time from the back. */
  lemma AnyMigratedSnoc(offers: seq<Option<SKPriceOffer>>, migrate: ItemStack -> Option<ItemStack>)
    requires |offers| > 0
    ensures AnyMigrated(offers, migrate) <==>
            AnyMigrated(offers[..|offers| - 1], migrate) ||
            (offers[|offers| - 1].Some? && StepOf(offers[|offers| - 1].value, migrate) != Keep)
  {
    var p := offers[..|offers| - 1];
    if AnyMigrated(offers, migrate) {
      var k :| 0 <= k < |offers| && offers[k].Some? && StepOf(offers[k].value, migrate) != Keep;
      if k < |p| {
        assert p[k] == offers[k];
      }
    }
    if AnyMigrated(p, migrate) {
      var k :| 0 <= k < |p| && p[k].Some? && StepOf(p[k].value, migrate) != Keep;
      assert offers[k] == p[k];
    }
  }

  /** The non-null offers of a list, in order. */
  function NonNull(offers: seq<Option<SKPriceOffer>>): seq<SKPriceOffer> {
    if |offers| == 0 then []
    else NonNull(offers[..|offers| - 1]) + if offers[|offers| - 1].Some? then [offers[|offers| - 1].value] else []
  }

  /** The result of migrating one offer, as a list of zero or one offers. */
  function MigrateOne(offer: Option<SKPriceOffer>, migrate: ItemStack -> Option<ItemStack>): seq<SKPriceOffer> {
    if offer.None? then []
    else match StepOf(offer.value, migrate)
      case Keep => [offer.value]
      case Drop => []
      case Replace(item) => [PriceOffer(item, offer.value.price)]
  }

  /** The new list an item migration is meant to build: every offer migrated in turn. */
  function MigratedOffers(offers: seq<Option<SKPriceOffer>>, migrate: ItemStack -> Option<ItemStack>): seq<SKPriceOffer> {
    if |offers| == 0 then []
    else MigratedOffers(offers[..|offers| - 1], migrate) + MigrateOne(offers[|offers| - 1], migrate)
  }

  /**
   * The new list migrateItems builds as written: the offers before the
   * first change are copied, but after it only changed offers are added.
   */
  function MigratedOffersAsWritten(offers: seq<Option<SKPriceOffer>>, migrate: ItemStack -> Option<ItemStack>): seq<SKPriceOffer> {
    if |offers| == 0 then []
    else
      var p := offers[..|offers| - 1];
      var last := offers[|offers| - 1];
      if !AnyMigrated(p, migrate) then NonNull(p) + MigrateOne(last, migrate)
      else
        var changed := if last.Some? && StepOf(last.value, migrate) != Keep then MigrateOne(last, migrate) else [];
        MigratedOffersAsWritten(p, migrate) + changed
  }

  /** The 1-based positions of the offers whose migration failed. */
  function FailedOffers(offers: seq<Option<SKPriceOffer>>, migrate: ItemStack -> Option<ItemStack>): seq<nat> {
    if |offers| == 0 then []
    else
      var last := offers[|offers| - 1];
      FailedOffers(offers[..|offers| - 1], migrate) +
        if last.Some? && StepOf(last.value, migrate) == Drop then [|offers|] else []
  }

  /** Without any changed item, the new list would just be the non-null offers. */
  lemma {:induction false} UnmigratedIsNonNull(offers: seq<Option<SKPriceOffer>>, migrate: ItemStack -> Option<ItemStack>)
    requires !AnyMigrated(offers, migrate)
    ensures MigratedOffers(offers, migrate) == NonNull(offers)
    decreases |offers|
  {
    if |offers| > 0 {
      AnyMigratedSnoc(offers, migrate);
      UnmigratedIsNonNull(offers[..|offers| - 1], migrate);
    }
  }

  /** Copies the non-null offers before position n (the copy made at the first change). */
  method CopyNonNull(offers: seq<Option<SKPriceOffer>>, n: nat) returns (copy: seq<SKPriceOffer>)
    requires n <= |offers|
    ensures copy == NonNull(offers[..n])
  {
    copy := [];
    for j := 0 to n
      invariant copy == NonNull(offers[..j])
    {
      assert offers[..j + 1][..j] == offers[..j];
      var oldOffer := offers[j];
      if oldOffer.Some? {
        copy := copy + [oldOffer.value];
      }
    }
  }

  /**
   * migrateItems as written: null for null; the same list (Unchanged) when
   * no item changed; otherwise a new list in which offers before the first
   * change are copied, null entries are skipped, changed offers get the
   * migrated item at the same price, offers whose item migrated to empty
   * are dropped with a warning naming their 1-based position, and offers
   * after the first change whose item did not change are left out.
   */
  method MigrateItemsAsWritten(offers: Option<seq<Option<SKPriceOffer>>>, migrate: ItemStack -> Option<ItemStack>)
    returns (r: Option<Migration<SKPriceOffer>>, failed: seq<nat>)
    ensures offers.None? ==> r.None? && failed == []
    ensures offers.Some? ==> r.Some? && failed == FailedOffers(offers.value, migrate)
    ensures offers.Some? ==> (r.value == Unchanged <==> !AnyMigrated(offers.value, migrate))
    ensures offers.Some? && r.value.Migrated? ==> r.value.offers == MigratedOffersAsWritten(offers.value, migrate)
  {
    failed := [];
    if offers.None? {
      return None, failed;
    }
    var list := offers.value;
    var migratedOffers: Option<seq<SKPriceOffer>> := None;
    for i := 0 to |list|
      invariant migratedOffers.None? <==> !AnyMigrated(list[..i], migrate)
      invariant migratedOffers.Some? ==> migratedOffers.value == MigratedOffersAsWritten(list[..i], migrate)
      invariant failed == FailedOffers(list[..i], migrate)
    {
      assert list[..i + 1][..i] == list[..i];
      AnyMigratedSnoc(list[..i + 1], migrate);
      var offer := list[i];
      if offer.None? {
        continue;
      }
      var item := offer.value.item;
      var migratedItem := migrate(item);
      if !SimilarOrBothNull(Some(item), migratedItem) {
        var migrationFailed := IsEmpty(migratedItem) && !IsEmpty(Some(item));
        if migratedOffers.None? {
          var copy := CopyNonNull(list, i);
          migratedOffers := Some(copy);
        }
        if migrationFailed {
          failed := failed + [i + 1];
          continue;
        }
        migratedOffers := Some(migratedOffers.value + [PriceOffer(migratedItem.value, offer.value.price)]);
      }
    }
    assert list[..|list|] == list;
    if migratedOffers.None? {
      return Some(Unchanged), failed;
    }
    return Some(Migrated(migratedOffers.value)), failed;
  }

  /**
   * migrateItems as evidently intended: like MigrateItemsAsWritten, except
   * that after the first change an offer whose item did not change is
   * carried over into the new list as well.
   */
  method MigrateItems(offers: Option<seq<Option<SKPriceOffer>>>, migrate: ItemStack -> Option<ItemStack>)
    returns (r: Option<Migration<SKPriceOffer>>, failed: seq<nat>)
    ensures offers.None? ==> r.None? && failed == []
    ensures offers.Some? ==> r.Some? && failed == FailedOffers(offers.value, migrate)
    ensures offers.Some? ==> (r.value == Unchanged <==> !AnyMigrated(offers.value, migrate))
    ensures offers.Some? && r.value.Migrated? ==> r.value.offers == MigratedOffers(offers.value, migrate)
  {
    failed := [];
    if offers.None? {
      return None, failed;
    }
    var list := offers.value;
    var migratedOffers: Option<seq<SKPriceOffer>> := None;
    for i := 0 to |list|
      invariant migratedOffers.None? <==> !AnyMigrated(list[..i], migrate)
      invariant migratedOffers.Some? ==> migratedOffers.value == MigratedOffers(list[..i], migrate)
      invariant failed == FailedOffers(list[..i], migrate)
    {
      assert list[..i + 1][..i] == list[..i];
      AnyMigratedSnoc(list[..i + 1], migrate);
      var offer := list[i];
      if offer.None? {
        continue;
      }
      var item := offer.value.item;
      var migratedItem := migrate(item);
      if !SimilarOrBothNull(Some(item), migratedItem) {
        var migrationFailed := IsEmpty(migratedItem) && !IsEmpty(Some(item));
        if migratedOffers.None? {
          var copy := CopyNonNull(list, i);
          UnmigratedIsNonNull(list[..i], migrate);
          migratedOffers := Some(copy);
        }
        if migrationFailed {
          failed := failed + [i + 1];
          continue;
        }
        migratedOffers := Some(migratedOffers.value + [PriceOffer(migratedItem.value, offer.value.price)]);
      } else if migratedOffers.Some? {
        migratedOffers := Some(migratedOffers.value + [offer.value]);
      }
    }
    assert list[..|list|] == list;
    if migratedOffers.None? {
      return Some(Unchanged), failed;
    }
    return Some(Migrated(migratedOffers.value)), failed;
  }

  /** The non-null offers that survive migration, in order. */
  function Survivors(offers: seq<Option<SKPriceOffer>>, migrate: ItemStack -> Option<ItemStack>): seq<SKPriceOffer> {
    if |offers| == 0 then []
    else
      var last := offers[|offers| - 1];
      Survivors(offers[..|offers| - 1], migrate) +
        if last.Some? && StepOf(last.value, migrate) != Drop then [last.value] else []
  }

  /**
   * The migrated list corresponds one to one, in order, to the surviving
   * offers: each keeps its price, and its item is either the original or
   * the migrated one; every non-null offer either survives or is reported.
   */
  lemma {:induction false} MigrationKeepsPrices(offers: seq<Option<SKPriceOffer>>, migrate: ItemStack -> Option<ItemStack>)
    ensures var m := MigratedOffers(offers, migrate);
            var s := Survivors(offers, migrate);
            |m| == |s| &&
            (forall k :: 0 <= k < |m| ==> m[k].price == s[k].price && (m[k].item == s[k].item || Some(m[k].item) == migrate(s[k].item)))
    ensures |Survivors(offers, migrate)| + |FailedOffers(offers, migrate)| == |NonNull(offers)|
    decreases |offers|
  {
    if |offers| > 0 {
      MigrationKeepsPrices(offers[..|offers| - 1], migrate);
    }
  }

  /** The offers of a list, as a list of non-null entries. */
  function AsEntries(offers: seq<SKPriceOffer>): (r: seq<Option<SKPriceOffer>>)
    ensures |r| == |offers| && forall k :: 0 <= k < |offers| ==> r[k] == Some(offers[k])
  {
    seq(|offers|, k requires 0 <= k < |offers| => Some(offers[k]))
  }

  /** Under a migration stable on its own results, every migrated offer is kept as it is. */
  lemma {:induction false} MigratedOffersAreStable(offers: seq<Option<SKPriceOffer>>, migrate: ItemStack -> Option<ItemStack>)
    requires forall x: ItemStack :: !IsEmpty(migrate(x)) ==> SimilarOrBothNull(migrate(x), migrate(migrate(x).value))
    ensures forall k :: 0 <= k < |MigratedOffers(offers, migrate)| ==> StepOf(MigratedOffers(offers, migrate)[k], migrate) == Keep
    decreases |offers|
  {
    if |offers| > 0 {
      var p := offers[..|offers| - 1];
      MigratedOffersAreStable(p, migrate);
      var last := offers[|offers| - 1];
      if last.Some? && StepOf(last.value, migrate).Replace? {
        var x := last.value.item;
        assert !IsEmpty(migrate(x));
      }
    }
  }

  /**
   * Under a migration that is stable on its own results, migrating the
   * migrated list again changes nothing, so it is returned as it is.
   */
  lemma MigrationIdempotent(offers: seq<Option<SKPriceOffer>>, migrate: ItemStack -> Option<ItemStack>)
    requires forall x: ItemStack :: !IsEmpty(migrate(x)) ==> SimilarOrBothNull(migrate(x), migrate(migrate(x).value))
    ensures !AnyMigrated(AsEntries(MigratedOffers(offers, migrate)), migrate)
  {
    MigratedOffersAreStable(offers, migrate);
  }

  /**
   * As written, an offer whose item does not change is lost once an
   * earlier offer has been migrated: of two offers, the first migrating to
   * another type and the second unaffected, only the first is kept, and no
   * failure is reported for the second.
   */
  lemma AsWrittenLosesUnchangedOffers()
    ensures var stone := Material("STONE", true, false, 64, true, Str("UNSPECIFIC"));
            var grass := Material("GRASS_BLOCK", true, false, 64, true, Str("UNSPECIFIC"));
            var dirt := Material("DIRT", true, false, 64, true, Str("UNSPECIFIC"));
            var first: SKPriceOffer := PriceOffer(ItemStack(grass, 1, Null), 5);
            var second: SKPriceOffer := PriceOffer(ItemStack(dirt, 1, Null), 7);
            var migrate := (x: ItemStack) => if x.itemType == grass then Some(x.(itemType := stone)) else Some(x);
            var offers := [Some(first), Some(second)];
            AnyMigrated(offers, migrate) &&
            MigratedOffersAsWritten(offers, migrate) == [PriceOffer(ItemStack(stone, 1, Null), 5)] &&
            FailedOffers(offers, migrate) == [] &&
            MigratedOffers(offers, migrate) == [PriceOffer(ItemStack(stone, 1, Null), 5), second]
  {
    var stone := Material("STONE", true, false, 64, true, Str("UNSPECIFIC"));
    var grass := Material("GRASS_BLOCK", true, false, 64, true, Str("UNSPECIFIC"));
    var dirt := Material("DIRT", true, false, 64, true, Str("UNSPECIFIC"));
    var first: SKPriceOffer := PriceOffer(ItemStack(grass, 1, Null), 5);
    var second: SKPriceOffer := PriceOffer(ItemStack(dirt, 1, Null), 7);
    var migrate := (x: ItemStack) => if x.itemType == grass then Some(x.(itemType := stone)) else Some(x);
    var offers := [Some(first), Some(second)];
    assert StepOf(first, migrate) == Replace(ItemStack(stone, 1, Null));
    assert StepOf(second, migrate) == Keep;
    assert offers[..1] == [Some(first)];
    var none: seq<Option<SKPriceOffer>> := [];
    assert offers[..1][..0] == none;
    assert MigrateOne(Some(first), migrate) == [PriceOffer(ItemStack(stone, 1, Null), 5)];
    assert MigratedOffers(offers[..1], migrate) == [PriceOffer(ItemStack(stone, 1, Null), 5)];
    assert FailedOffers(offers[..1], migrate) == [];
    AnyMigratedSnoc(offers[..1], migrate);
    AnyMigratedSnoc(offers, migrate);
  }
}
