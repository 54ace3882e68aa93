/**
 * ItemData: an immutable item type together with optional item meta data,
 * its compact config representation (serialize / deserialize), and data
 * matching against stacks and other item data.
 */
module ItemDataFormat {
  import opened Wrappers
  import opened Values
  import opened Items
  import opened ItemMatching

  const TYPE_KEY: string := "type"
  const DISPLAY_NAME_KEY: string := "display-name"
  const LORE_KEY: string := "lore"
  const BLOCK_MATERIAL_KEY: string := "blockMaterial"

  /**
   * The server functionality item data relies on, as pure functions.
   * deserializeItemMeta gives the meta serialization a stack of the given
   * type has after setItemMeta(deserializeItemMeta(map)) (Null for no meta);
   * onlyUnspecificMeta tells whether asMetaFor(meta, STONE) equals the meta;
   * metaForType is the meta a stack keeps after setType.
   */
  datatype Host = Host(
    parseMaterial: string -> Option<Material>,
    valueToString: Value -> string,
    colorize: string -> string,
    colorizeList: seq<Value> -> seq<Value>,
    decolorize: string -> string,
    decolorizeList: seq<Value> -> seq<Value>,
    deserializeItemMeta: (Material, seq<Entry>) -> Value,
    onlyUnspecificMeta: Value -> bool,
    metaForType: (Value, Material) -> Value)

  /** Item data: a type and meta; its data item is the stack of one such item. */
  datatype ItemData = ItemData(itemType: Material, meta: Value)

  function DataItem(d: ItemData): (s: ItemStack)
    ensures s.amount == 1 && s.itemType == d.itemType
  {
    ItemStack(d.itemType, 1, d.meta)
  }

  /** new ItemData(type): the data of a fresh stack of the type. */
  function OfType(t: Material): (d: ItemData)
    ensures Similar(DataItem(d), Some(NewItemStack(t, 1)))
  {
    ItemData(t, FreshMeta(t))
  }

  /** new ItemData(stack): keeps the stack's type and meta, with an amount of one. */
  function FromItemStack(s: ItemStack): (d: ItemData)
    ensures DataItem(d) == s.(amount := 1) && Similar(s, Some(DataItem(d)))
  {
    ItemData(s.itemType, s.meta)
  }

  /** Bukkit's empty-meta test: no meta, or a serialization holding nothing besides the meta type. */
  predicate EmptyMeta(m: Value) {
    !m.Map? || forall i :: 0 <= i < |m.entries| ==> m.entries[i].key == META_TYPE_KEY
  }

  /** getSerializedData: the serialized meta, or the empty map when the meta is empty. */
  function SerializedData(d: ItemData): (r: seq<Entry>)
    ensures |r| == 0 <==> EmptyMeta(d.meta)
    ensures |r| > 0 ==> r == d.meta.entries
  {
    if EmptyMeta(d.meta) then [] else d.meta.entries
  }

  /** hasItemMeta: whether there is any serialized meta data. */
  predicate HasItemMeta(d: ItemData) {
    |SerializedData(d)| > 0
  }

  // ---------------------------------------------------------------------
  // serialize

  /** The meta keys serialize writes: never the meta type, and no redundant blockMaterial. */
  predicate Kept(host: Host, d: ItemData, key: string) {
    key != META_TYPE_KEY && !(key == BLOCK_MATERIAL_KEY && host.onlyUnspecificMeta(d.meta))
  }

  /** A meta value as serialize writes it: display name and lore use alternative color codes. */
  function ExportValue(host: Host, key: string, v: Value): Value {
    if key == DISPLAY_NAME_KEY && v.Str? then Str(host.decolorize(v.s))
    else if key == LORE_KEY && v.List? then List(host.decolorizeList(v.items))
    else v
  }

  /** One iteration of serialize's loop over the serialized meta entries. */
  function SerializeEntry(host: Host, d: ItemData, acc: seq<Entry>, e: Entry): seq<Entry> {
    if Kept(host, d, e.key) then Put(acc, e.key, ExportValue(host, e.key, e.val)) else acc
  }

  /** serialize's loop over all remaining entries. */
  function SerializeEntries(host: Host, d: ItemData, acc: seq<Entry>, rest: seq<Entry>): seq<Entry>
    decreases |rest|
  {
    if |rest| == 0 then acc else SerializeEntries(host, d, SerializeEntry(host, d, acc, rest[0]), rest[1..])
  }

  /** The value serialize returns. */
  function SerializedForm(host: Host, d: ItemData): Value {
    if !HasItemMeta(d) then Str(d.itemType.name)
    else Map(SerializeEntries(host, d, [Entry(TYPE_KEY, Str(d.itemType.name))], SerializedData(d)))
  }

  /**
   * serialize: the type name alone when there is no meta data, otherwise a
   * map with the type first followed by the kept meta entries.
   */
  method Serialize(host: Host, d: ItemData) returns (r: Value)
    ensures r == SerializedForm(host, d)
  {
    var serializedData := SerializedData(d);
    if |serializedData| == 0 {
      return Str(d.itemType.name);
    }
    var dataMap := [Entry(TYPE_KEY, Str(d.itemType.name))];
    var i := 0;
    while i < |serializedData|
      invariant 0 <= i <= |serializedData|
      invariant SerializeEntries(host, d, [Entry(TYPE_KEY, Str(d.itemType.name))], serializedData) ==
                SerializeEntries(host, d, dataMap, serializedData[i..])
    {
      var key := serializedData[i].key;
      var value := serializedData[i].val;
      assert serializedData[i..][1..] == serializedData[i + 1..];
      if key != META_TYPE_KEY && !(key == BLOCK_MATERIAL_KEY && host.onlyUnspecificMeta(d.meta)) {
        if key == DISPLAY_NAME_KEY {
          if value.Str? {
            value := Str(host.decolorize(value.s));
          }
        } else if key == LORE_KEY {
          if value.List? {
            value := List(host.decolorizeList(value.items));
          }
        }
        dataMap := Put(dataMap, key, value);
      }
      i := i + 1;
    }
    return Map(dataMap);
  }

  /** The serialize loop never moves the entries already written. */
  lemma {:induction false} SerializeEntriesKeepsPrefix(host: Host, d: ItemData, acc: seq<Entry>, rest: seq<Entry>)
    ensures |SerializeEntries(host, d, acc, rest)| >= |acc|
    ensures forall i :: 0 <= i < |acc| ==> SerializeEntries(host, d, acc, rest)[i].key == acc[i].key
    decreases |rest|
  {
    if |rest| > 0 {
      SerializeEntriesKeepsPrefix(host, d, SerializeEntry(host, d, acc, rest[0]), rest[1..]);
    }
  }

  /**
   * What the serialize loop leaves under each key, given distinct meta keys:
   * the exported meta value for kept keys the meta has, otherwise what was
   * already written.
   */
  lemma {:induction false} SerializeEntriesGet(host: Host, d: ItemData, acc: seq<Entry>, rest: seq<Entry>, k: string)
    requires UniqueKeys(rest)
    ensures Get(SerializeEntries(host, d, acc, rest), k) ==
            if HasKey(rest, k) && Kept(host, d, k) then ExportValue(host, k, Get(rest, k)) else Get(acc, k)
    ensures HasKey(SerializeEntries(host, d, acc, rest), k) <==> HasKey(acc, k) || (HasKey(rest, k) && Kept(host, d, k))
    decreases |rest|
  {
    if |rest| > 0 {
      var e := rest[0];
      var acc' := SerializeEntry(host, d, acc, e);
      assert UniqueKeys(rest[1..]);
      SerializeEntriesGet(host, d, acc', rest[1..], k);
      if Kept(host, d, e.key) {
        PutGet(acc, e.key, ExportValue(host, e.key, e.val), k);
        PutHasKey(acc, e.key, ExportValue(host, e.key, e.val), k);
      }
      if e.key == k {
        HasKeyIndex(rest[1..], k);
        forall i | 0 <= i < |rest[1..]| ensures rest[1..][i].key != k {
          assert rest[1..][i] == rest[i + 1];
        }
      }
    }
  }

  /**
   * The serialized form of item data with meta: a map whose first key is the
   * type, without the meta type, holding every kept meta value in exported
   * form and nothing else besides the type.
   */
  lemma SerializedFormShape(host: Host, d: ItemData, k: string)
    requires HasItemMeta(d) && UniqueKeys(SerializedData(d))
    requires !HasKey(SerializedData(d), TYPE_KEY)
    ensures var r := SerializedForm(host, d);
            r.Map? && |r.entries| > 0 && r.entries[0].key == TYPE_KEY &&
            Get(r.entries, TYPE_KEY) == Str(d.itemType.name) &&
            !HasKey(r.entries, META_TYPE_KEY) &&
            (k != TYPE_KEY ==>
              Get(r.entries, k) == if Kept(host, d, k) then ExportValue(host, k, Get(SerializedData(d), k)) else Null)
  {
    var data := SerializedData(d);
    var acc := [Entry(TYPE_KEY, Str(d.itemType.name))];
    SerializeEntriesKeepsPrefix(host, d, acc, data);
    SerializeEntriesGet(host, d, acc, data, TYPE_KEY);
    SerializeEntriesGet(host, d, acc, data, META_TYPE_KEY);
    SerializeEntriesGet(host, d, acc, data, k);
    assert !HasKey(acc[1..], META_TYPE_KEY);
    assert !HasKey(acc[1..], k);
  }

  // ---------------------------------------------------------------------
  // deserialize

  datatype DeserializeError =
    | UnknownRepresentation
    | MissingItemType
    | UnknownItemType(typeName: string)
    | LegacyItemType(typeName: string)
    | InvalidItemType(typeName: string)
    | NoMetaSupport(typeName: string)
    | UndeterminedMetaType

  /** The shallow copy deserialize makes of a map: LinkedHashMap.put of every entry in order. */
  function CopyEntries(entries: seq<Entry>): seq<Entry> {
    if |entries| == 0 then []
    else Put(CopyEntries(entries[..|entries| - 1]), entries[|entries| - 1].key, entries[|entries| - 1].val)
  }

  /** Copying a map with distinct keys reproduces it, order included. */
  lemma {:induction false} CopyOfUniqueIsIdentity(entries: seq<Entry>)
    requires UniqueKeys(entries)
    ensures CopyEntries(entries) == entries
    decreases |entries|
  {
    if |entries| > 0 {
      var p := entries[..|entries| - 1];
      var last := entries[|entries| - 1];
      assert UniqueKeys(p);
      CopyOfUniqueIsIdentity(p);
      HasKeyIndex(p, last.key);
      assert !HasKey(p, last.key);
      assert p + [last] == entries;
    }
  }

  /** Object.toString of the value under "type". */
  function TypeNameOf(host: Host, v: Value): string {
    if v.Str? then v.s else host.valueToString(v)
  }

  /**
   * The preparation of the meta map: the meta type is inserted, and a
   * string display name and a list lore are converted to color codes.
   */
  function PrepareMetaData(host: Host, dataMap: seq<Entry>, metaType: Value): (r: seq<Entry>)
    ensures Get(r, META_TYPE_KEY) == metaType
    ensures var dn := Get(dataMap, DISPLAY_NAME_KEY);
            Get(r, DISPLAY_NAME_KEY) == if dn.Str? then Str(host.colorize(dn.s)) else dn
    ensures var lore := Get(dataMap, LORE_KEY);
            Get(r, LORE_KEY) == if lore.List? then List(host.colorizeList(lore.items)) else lore
    ensures forall k :: k != META_TYPE_KEY && k != DISPLAY_NAME_KEY && k != LORE_KEY ==> Get(r, k) == Get(dataMap, k)
  {
    var m1 := Put(dataMap, META_TYPE_KEY, metaType);
    var dn := Get(m1, DISPLAY_NAME_KEY);
    var m2 := if dn.Str? then Put(m1, DISPLAY_NAME_KEY, Str(host.colorize(dn.s))) else m1;
    var lore := Get(m2, LORE_KEY);
    var m3 := if lore.List? then Put(m2, LORE_KEY, List(host.colorizeList(lore.items))) else m2;
    assert forall k :: Get(m1, k) == if k == META_TYPE_KEY then metaType else Get(dataMap, k) by {
      forall k { PutGet(dataMap, META_TYPE_KEY, metaType, k); }
    }
    forall k ensures Get(m2, k) == if k == DISPLAY_NAME_KEY && dn.Str? then Str(host.colorize(dn.s)) else Get(m1, k) {
      if dn.Str? { PutGet(m1, DISPLAY_NAME_KEY, Str(host.colorize(dn.s)), k); }
    }
    forall k ensures Get(m3, k) == if k == LORE_KEY && lore.List? then List(host.colorizeList(lore.items)) else Get(m2, k) {
      if lore.List? { PutGet(m2, LORE_KEY, List(host.colorizeList(lore.items)), k); }
    }
    m3
  }

  /** deserialize from a type name and, if more than the type was given, the meta map. */
  function FromTypeName(host: Host, typeName: string, dataMap: Option<seq<Entry>>): Result<Option<ItemData>, DeserializeError> {
    var parsed := host.parseMaterial(typeName);
    if parsed.None? then Failure(UnknownItemType(typeName))
    else
      var t := parsed.value;
      if t.isLegacy then Failure(LegacyItemType(typeName))
      else if !t.isItem then Failure(InvalidItemType(typeName))
      else if dataMap.None? then Success(Some(OfType(t)))
      else if !t.hasItemMeta then Failure(NoMetaSupport(t.name))
      else if t.metaType.Null? then Failure(UndeterminedMetaType)
      else
        var prepared := PrepareMetaData(host, dataMap.value, t.metaType);
        Success(Some(ItemData(t, host.deserializeItemMeta(t, prepared))))
  }

  /**
   * deserialize: null gives null; a string is a type name; a map must hold
   * a non-null "type" and, beyond it, optional meta data; anything else is
   * rejected.
   */
  function Deserialize(host: Host, dataObject: Value): (r: Result<Option<ItemData>, DeserializeError>)
    ensures r == Success(None) <==> dataObject.Null?
    ensures r.Success? && r.value.Some? ==>
      var t := r.value.value.itemType;
      t.isItem && !t.isLegacy && (dataObject.Str? ==> host.parseMaterial(dataObject.s) == Some(t))
    ensures r.Success? && r.value.Some? && !dataObject.Str? ==>
      dataObject.Map? && host.parseMaterial(TypeNameOf(host, Get(dataObject.entries, TYPE_KEY))) == Some(r.value.value.itemType)
    ensures r == Failure(MissingItemType) <==> dataObject.Map? && Get(dataObject.entries, TYPE_KEY).Null?
    ensures r == Failure(UnknownRepresentation) <==> !(dataObject.Null? || dataObject.Str? || dataObject.Map?)
  {
    if dataObject.Null? then Success(None)
    else if dataObject.Str? then FromTypeName(host, dataObject.s, None)
    else if dataObject.Map? then
      var dataMap := CopyEntries(dataObject.entries);
      var typeData := Get(dataObject.entries, TYPE_KEY);
      if typeData.Null? then Failure(MissingItemType)
      else FromTypeName(host, TypeNameOf(host, typeData), if |dataMap| <= 1 then None else Some(dataMap))
    else Failure(UnknownRepresentation)
  }

  /** A config map holding only the type is read like the bare type name. */
  lemma TypeOnlyMapIsCompact(host: Host, name: string)
    ensures Deserialize(host, Map([Entry(TYPE_KEY, Str(name))])) == Deserialize(host, Str(name))
  {
    assert CopyEntries([Entry(TYPE_KEY, Str(name))]) == [Entry(TYPE_KEY, Str(name))];
  }

  /** The outcome for a type name: which check rejects it, or the fresh item data. */
  lemma DeserializeTypeName(host: Host, name: string)
    ensures var r := Deserialize(host, Str(name));
            var p := host.parseMaterial(name);
            (p.None? <==> r == Failure(UnknownItemType(name))) &&
            (p.Some? && p.value.isLegacy <==> r == Failure(LegacyItemType(name))) &&
            (p.Some? && !p.value.isLegacy && !p.value.isItem <==> r == Failure(InvalidItemType(name))) &&
            (p.Some? && !p.value.isLegacy && p.value.isItem ==> r == Success(Some(OfType(p.value))))
  {
  }

  /**
   * The outcome for a map whose "type" is not null and that holds more than
   * the type: which check rejects it, or the item data the server builds
   * from the prepared meta map.
   */
  lemma DeserializeMap(host: Host, entries: seq<Entry>)
    requires !Get(entries, TYPE_KEY).Null? && |CopyEntries(entries)| > 1
    ensures var r := Deserialize(host, Map(entries));
            var name := TypeNameOf(host, Get(entries, TYPE_KEY));
            var p := host.parseMaterial(name);
            (p.None? <==> r == Failure(UnknownItemType(name))) &&
            (p.Some? && p.value.isLegacy <==> r == Failure(LegacyItemType(name))) &&
            (p.Some? && !p.value.isLegacy && !p.value.isItem <==> r == Failure(InvalidItemType(name))) &&
            (p.Some? && !p.value.isLegacy && p.value.isItem && !p.value.hasItemMeta <==>
              p.Some? && r == Failure(NoMetaSupport(p.value.name))) &&
            (p.Some? && !p.value.isLegacy && p.value.isItem && p.value.hasItemMeta && p.value.metaType.Null? <==>
              r == Failure(UndeterminedMetaType)) &&
            (p.Some? && !p.value.isLegacy && p.value.isItem && p.value.hasItemMeta && !p.value.metaType.Null? ==>
              r == Success(Some(ItemData(p.value,
                host.deserializeItemMeta(p.value, PrepareMetaData(host, CopyEntries(entries), p.value.metaType))))))
  {
  }

  /** Item data without meta that the server names by its type survives the round trip. */
  lemma RoundTripWithoutMeta(host: Host, t: Material)
    requires host.parseMaterial(t.name) == Some(t) && t.isItem && !t.isLegacy
    ensures Deserialize(host, SerializedForm(host, OfType(t))) == Success(Some(OfType(t)))
  {
  }

  /** The meta map deserialize hands to the server when reading the serialized form of d. */
  function PreparedForRoundTrip(host: Host, d: ItemData): seq<Entry>
    requires HasItemMeta(d)
  {
    var m := SerializedForm(host, d).entries;
    PrepareMetaData(host, CopyEntries(m), d.itemType.metaType)
  }

  /**
   * Reading back serialized item data with meta hands the server's meta
   * deserializer the original meta values under every key except the type
   * and an omitted blockMaterial, provided the colour conversions are
   * inverse and the meta holds the type's meta type.
   */
  lemma RoundTripWithMeta(host: Host, d: ItemData, k: string)
    requires HasItemMeta(d) && UniqueKeys(SerializedData(d)) && !HasKey(SerializedData(d), TYPE_KEY)
    requires host.parseMaterial(d.itemType.name) == Some(d.itemType) && d.itemType.isItem && !d.itemType.isLegacy
    requires d.itemType.hasItemMeta && !d.itemType.metaType.Null?
    requires Get(SerializedData(d), META_TYPE_KEY) == d.itemType.metaType
    requires |SerializedForm(host, d).entries| > 1
    requires forall s :: host.colorize(host.decolorize(s)) == s
    requires forall l :: host.colorizeList(host.decolorizeList(l)) == l
    ensures Deserialize(host, SerializedForm(host, d)) ==
            Success(Some(ItemData(d.itemType, host.deserializeItemMeta(d.itemType, PreparedForRoundTrip(host, d)))))
    ensures (k != TYPE_KEY && Kept(host, d, k)) || k == META_TYPE_KEY ==>
            Get(PreparedForRoundTrip(host, d), k) == Get(SerializedData(d), k)
  {
    var m := SerializedForm(host, d).entries;
    SerializedCopyIsIdentity(host, d);
    SerializedFormShape(host, d, k);
    DeserializeMap(host, m);
    RoundTripMetaValue(host, d, k);
  }

  /** The copy deserialize makes of the serialized form is the serialized form itself. */
  lemma SerializedCopyIsIdentity(host: Host, d: ItemData)
    requires HasItemMeta(d)
    ensures CopyEntries(SerializedForm(host, d).entries) == SerializedForm(host, d).entries
  {
    var data := SerializedData(d);
    var acc := [Entry(TYPE_KEY, Str(d.itemType.name))];
    assert UniqueKeys(acc);
    UniqueAfterSerialize(host, d, acc, data);
    CopyOfUniqueIsIdentity(SerializedForm(host, d).entries);
  }

  /** One meta value of the prepared map read back from the serialized form. */
  lemma RoundTripMetaValue(host: Host, d: ItemData, k: string)
    requires HasItemMeta(d) && UniqueKeys(SerializedData(d)) && !HasKey(SerializedData(d), TYPE_KEY)
    requires Get(SerializedData(d), META_TYPE_KEY) == d.itemType.metaType
    requires forall s :: host.colorize(host.decolorize(s)) == s
    requires forall l :: host.colorizeList(host.decolorizeList(l)) == l
    ensures (k != TYPE_KEY && Kept(host, d, k)) || k == META_TYPE_KEY ==>
            Get(PreparedForRoundTrip(host, d), k) == Get(SerializedData(d), k)
  {
    SerializedCopyIsIdentity(host, d);
    SerializedFormShape(host, d, k);
  }

  /** The serialize loop keeps map keys distinct. */
  lemma {:induction false} UniqueAfterSerialize(host: Host, d: ItemData, acc: seq<Entry>, rest: seq<Entry>)
    requires UniqueKeys(acc)
    ensures UniqueKeys(SerializeEntries(host, d, acc, rest))
    decreases |rest|
  {
    if |rest| > 0 {
      var e := rest[0];
      if Kept(host, d, e.key) {
        PutUnique(acc, e.key, ExportValue(host, e.key, e.val));
      }
      UniqueAfterSerialize(host, d, SerializeEntry(host, d, acc, e), rest[1..]);
    }
  }

  // ---------------------------------------------------------------------
  // Item stacks, similarity, type change and matching

  /** createItemStack(amount): a copy of the data item with the given amount. */
  function CreateItemStack(d: ItemData, amount: int32): (s: ItemStack)
    ensures s.amount == amount && Similar(DataItem(d), Some(s))
  {
    DataItem(d).(amount := amount)
  }

  /** isSimilar(stack): whether the stack is similar to the data item. */
  predicate IsSimilar(d: ItemData, other: Option<ItemStack>) {
    Similar(DataItem(d), other)
  }

  /** Every stack created from item data is similar to it, whatever its amount. */
  lemma CreatedStacksAreSimilar(d: ItemData, amount: int32)
    ensures IsSimilar(d, Some(CreateItemStack(d, amount)))
    ensures FromItemStack(CreateItemStack(d, amount)) == d
  {
  }

  /**
   * withType: rejected unless the type is an item; the same item data for
   * its own type; otherwise the data item retyped by the server.
   */
  function WithType(host: Host, d: ItemData, t: Material): (r: Result<ItemData, string>)
    ensures r.Success? <==> t.isItem
    ensures r.Success? ==> r.value.itemType == t
    ensures t.isItem && t == d.itemType ==> r == Success(d)
  {
    if !t.isItem then Failure("type is not an item")
    else if d.itemType == t then Success(d)
    else Success(ItemData(t, host.metaForType(d.meta, t)))
  }

  /** matches(stack, partial): the stack has this type and contains this serialized data. */
  predicate MatchesItem(d: ItemData, item: Option<ItemStack>, partialLists: bool) {
    ItemMatchesTypeAndData(item, d.itemType, SerializedData(d), partialLists)
  }

  /** matches(other, partial): the other data has this type and its serialized data contains this one's. */
  predicate Matches(d: ItemData, other: Option<ItemData>, partialLists: bool) {
    other.Some? && other.value.itemType == d.itemType &&
    MatchesData(Map(SerializedData(other.value)), Map(SerializedData(d)), partialLists)
  }

  /** A stack is similar to item data exactly when the item data made from it is that item data. */
  lemma IsSimilarIffSameData(d: ItemData, s: ItemStack)
    ensures IsSimilar(d, Some(s)) <==> FromItemStack(s) == d
    ensures !IsSimilar(d, None)
  {
  }

  /**
   * For a stack with meta, matching the stack and matching the item data
   * made from it give the same answer.
   */
  lemma MatchesItemAgreesWithMatches(d: ItemData, s: ItemStack, partialLists: bool)
    requires s.meta.Map? && !EmptyMeta(s.meta)
    ensures MatchesItem(d, Some(s), partialLists) <==> Matches(d, Some(FromItemStack(s)), partialLists)
  {
  }

  /** Item data with well-formed meta matches itself and its own data item. */
  lemma MatchesSelf(d: ItemData, partialLists: bool)
    requires WellFormed(d.meta)
    ensures Matches(d, Some(d), partialLists)
    ensures MatchesItem(d, Some(DataItem(d)), partialLists)
  {
    if HasItemMeta(d) {
      MatchesReflexive(d.meta, partialLists);
    } else {
      assert SerializedData(d) == [];
    }
  }

  /** Matching between item data is transitive. */
  lemma MatchesChain(a: ItemData, b: ItemData, c: ItemData, partialLists: bool)
    requires Matches(a, Some(b), partialLists) && Matches(b, Some(c), partialLists)
    ensures Matches(a, Some(c), partialLists)
  {
    MatchesTransitive(Map(SerializedData(c)), Map(SerializedData(b)), Map(SerializedData(a)), partialLists);
  }

  /** Item data without meta data matches every stack of its type, and no stack of another type. */
  lemma NoMetaMatchesType(d: ItemData, item: ItemStack, partialLists: bool)
    requires !HasItemMeta(d)
    ensures MatchesItem(d, Some(item), partialLists) <==> item.itemType == d.itemType
  {
  }
}
