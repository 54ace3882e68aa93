/**
 * The registry of living-entity shop object types
 * (SKLivingEntityObjectTypes): which entity types get a shop object type,
 * in which order, and under which permission.
 */
module LivingEntityObjectTypes {
  import opened Wrappers

  /** An entity type of the server, with the two flags registration looks at. */
  datatype EntityType = EntityType(name: string, isAlive: bool, isSpawnable: bool)

  /** A living-entity shop object type: its entity type, aliases, identifier and permission. */
  datatype ObjectType = ObjectType(entityType: EntityType, aliases: seq<string>, identifier: string, permission: string)

  const PERMISSION_PREFIX := "shopkeeper.entity."

  /** getAliases: "mooshroom" for the mushroom cow, no aliases for every other type. */
  function GetAliases(entityType: EntityType): (r: seq<string>)
    ensures entityType.name == "MUSHROOM_COW" ==> r == ["mooshroom"]
    ensures entityType.name != "MUSHROOM_COW" ==> r == []
  {
    if entityType.name == "MUSHROOM_COW" then ["mooshroom"] else []
  }

  /** The lower-case form of an ASCII character; every other character stays. */
  function LowerChar(c: char): (r: char)
    ensures 'A' <= c <= 'Z' ==> r as int == c as int + 32
    ensures !('A' <= c <= 'Z') ==> r == c
  {
    if 'A' <= c <= 'Z' then (c as int + 32) as char else c
  }

  /** toLowerCase(Locale.ROOT), on the ASCII letters enum names are made of. */
  function ToLower(s: string): (r: string)
    ensures |r| == |s| && forall i :: 0 <= i < |s| ==> r[i] == LowerChar(s[i])
  {
    seq(|s|, i requires 0 <= i < |s| => LowerChar(s[i]))
  }

  /**
   * createLivingEntityObjectType: the identifier is the lower-case type
   * name and the permission is "shopkeeper.entity." followed by it.
   */
  function CreateObjectType(entityType: EntityType, aliases: seq<string>): (r: ObjectType)
    ensures r.entityType == entityType && r.aliases == aliases
    ensures r.identifier == ToLower(entityType.name)
    ensures r.permission == PERMISSION_PREFIX + r.identifier
  {
    var typeName := ToLower(entityType.name);
    ObjectType(entityType, aliases, typeName, PERMISSION_PREFIX + typeName)
  }

  /** Distinct upper-case type names give distinct permissions. */
  lemma PermissionsDistinct(a: EntityType, b: EntityType)
    requires forall i :: 0 <= i < |a.name| ==> !('a' <= a.name[i] <= 'z')
    requires forall i :: 0 <= i < |b.name| ==> !('a' <= b.name[i] <= 'z')
    requires a.name != b.name
    ensures CreateObjectType(a, GetAliases(a)).permission != CreateObjectType(b, GetAliases(b)).permission
  {
    var la := ToLower(a.name);
    var lb := ToLower(b.name);
    assert (PERMISSION_PREFIX + la)[|PERMISSION_PREFIX|..] == la;
    assert (PERMISSION_PREFIX + lb)[|PERMISSION_PREFIX|..] == lb;
  }

  /** Shop objects exist only for entity types that are alive and spawnable. */
  predicate Eligible(t: EntityType) {
    t.isAlive && t.isSpawnable
  }

  /** EntityType.valueOf: the entity type with the given name, if there is one. */
  function ValueOf(entityTypes: seq<EntityType>, name: string): (r: Option<EntityType>)
    ensures r.Some? ==> r.value in entityTypes && r.value.name == name
    ensures r.None? ==> forall i :: 0 <= i < |entityTypes| ==> entityTypes[i].name != name
  {
    if |entityTypes| == 0 then None
    else if entityTypes[0].name == name then Some(entityTypes[0])
    else ValueOf(entityTypes[1..], name)
  }

  /** The registered object types in insertion order, keyed by entity type. */
  type Registry = seq<(EntityType, ObjectType)>

  function KeysOf(r: Registry): (keys: seq<EntityType>)
    ensures |keys| == |r| && forall i :: 0 <= i < |r| ==> keys[i] == r[i].0
  {
    seq(|r|, i requires 0 <= i < |r| => r[i].0)
  }

  /** The object type the registry stores for an entity type. */
  function ObjectTypeFor(t: EntityType): ObjectType {
    CreateObjectType(t, GetAliases(t))
  }

  /** LinkedHashMap.put: a key already present keeps its position and gets the new value, a new one goes last. */
  function Register(r: Registry, t: EntityType): Registry {
    if t in KeysOf(r) then r[KeyIndex(r, t) := (t, ObjectTypeFor(t))]
    else r + [(t, ObjectTypeFor(t))]
  }

  /** The position of a key in the registry. */
  function KeyIndex(r: Registry, t: EntityType): (i: nat)
    requires t in KeysOf(r)
    ensures i < |r| && r[i].0 == t
  {
    if r[0].0 == t then 0
    else
      assert KeysOf(r) == [r[0].0] + KeysOf(r[1..]);
      1 + KeyIndex(r[1..], t)
  }

  /** The entity type an enabled-shops entry names, when it is known and eligible. */
  function Resolve(entityTypes: seq<EntityType>, entry: Option<string>): Option<EntityType> {
    if entry.None? then None
    else
      var t := ValueOf(entityTypes, entry.value);
      if t.Some? && Eligible(t.value) then t else None
  }

  /** The registry after the first loop: the enabled types in config order. */
  function EnabledRegistry(enabled: seq<Option<string>>, entityTypes: seq<EntityType>): Registry {
    if |enabled| == 0 then []
    else
      var r := EnabledRegistry(enabled[..|enabled| - 1], entityTypes);
      var t := Resolve(entityTypes, enabled[|enabled| - 1]);
      if t.Some? then Register(r, t.value) else r
  }

  /** The registry after the second loop: the remaining eligible types appended in enum order. */
  function CompletedRegistry(r: Registry, types: seq<EntityType>): Registry {
    if |types| == 0 then r
    else
      var s := CompletedRegistry(r, types[..|types| - 1]);
      var t := types[|types| - 1];
      if Eligible(t) && t !in KeysOf(s) then s + [(t, ObjectTypeFor(t))] else s
  }

  function Registered(enabled: seq<Option<string>>, entityTypes: seq<EntityType>): Registry {
    CompletedRegistry(EnabledRegistry(enabled, entityTypes), entityTypes)
  }

  class LivingEntityObjectTypeRegistry {
    var objectTypes: Registry

    /**
     * The constructor: first the enabled types, in the order of the
     * enabled-living-shops setting, skipping null, unknown and ineligible
     * names; then every other eligible entity type, in enum order.
     */
    constructor (enabledLivingShops: seq<Option<string>>, entityTypes: seq<EntityType>)
      ensures objectTypes == Registered(enabledLivingShops, entityTypes)
    {
      objectTypes := [];
      new;
      for i := 0 to |enabledLivingShops|
        invariant objectTypes == EnabledRegistry(enabledLivingShops[..i], entityTypes)
      {
        assert enabledLivingShops[..i + 1][..i] == enabledLivingShops[..i];
        var enabledEntityType := enabledLivingShops[i];
        if enabledEntityType.None? {
          continue;
        }
        var entityType := ValueOf(entityTypes, enabledEntityType.value);
        if entityType.None? {
          continue;
        }
        if Eligible(entityType.value) {
          objectTypes := Register(objectTypes, entityType.value);
        }
      }
      assert enabledLivingShops[..|enabledLivingShops|] == enabledLivingShops;
      ghost var enabledPart := objectTypes;
      for i := 0 to |entityTypes|
        invariant objectTypes == CompletedRegistry(enabledPart, entityTypes[..i])
      {
        assert entityTypes[..i + 1][..i] == entityTypes[..i];
        var entityType := entityTypes[i];
        if Eligible(entityType) && entityType !in KeysOf(objectTypes) {
          objectTypes := objectTypes + [(entityType, ObjectTypeFor(entityType))];
        }
      }
      assert entityTypes[..|entityTypes|] == entityTypes;
    }

    /** getObjectType: the object type registered for an entity type, if any. */
    method GetObjectType(entityType: EntityType) returns (r: Option<ObjectType>)
      ensures r.None? <==> entityType !in KeysOf(objectTypes)
      ensures r.Some? ==> (entityType, r.value) in objectTypes
    {
      for i := 0 to |objectTypes|
        invariant entityType !in KeysOf(objectTypes[..i])
      {
        if objectTypes[i].0 == entityType {
          return Some(objectTypes[i].1);
        }
        assert KeysOf(objectTypes[..i + 1]) == KeysOf(objectTypes[..i]) + [objectTypes[i].0];
      }
      assert objectTypes[..|objectTypes|] == objectTypes;
      return None;
    }
  }

  // ---------------------------------------------------------------------
  // Properties of the registration order

  predicate Distinct(s: seq<EntityType>) {
    forall i, j :: 0 <= i < j < |s| ==> s[i] != s[j]
  }

  /** Registering keeps the keys distinct and every stored object type the one of its key. */
  predicate Consistent(r: Registry) {
    Distinct(KeysOf(r)) && forall i :: 0 <= i < |r| ==> r[i].1 == ObjectTypeFor(r[i].0)
  }

  /** The duplicate-free form of a list, each element at its first position. */
  function Dedup(s: seq<EntityType>): seq<EntityType> {
    if |s| == 0 then []
    else
      var d := Dedup(s[..|s| - 1]);
      if s[|s| - 1] in d then d else d + [s[|s| - 1]]
  }

  lemma {:induction false} DedupElements(s: seq<EntityType>, x: EntityType)
    ensures x in Dedup(s) <==> x in s
    decreases |s|
  {
    if |s| > 0 {
      DedupElements(s[..|s| - 1], x);
      assert s == s[..|s| - 1] + [s[|s| - 1]];
    }
  }

  /** Registering an entity type puts it where LinkedHashMap.put would, and keeps the registry consistent. */
  lemma RegisterKeys(r: Registry, t: EntityType)
    requires Consistent(r)
    ensures Consistent(Register(r, t))
    ensures KeysOf(Register(r, t)) == if t in KeysOf(r) then KeysOf(r) else KeysOf(r) + [t]
  {
    if t in KeysOf(r) {
      var i := KeyIndex(r, t);
      assert KeysOf(r[i := (t, ObjectTypeFor(t))]) == KeysOf(r);
    } else {
      assert KeysOf(r + [(t, ObjectTypeFor(t))]) == KeysOf(r) + [t];
    }
  }

  /** The eligible known types the enabled entries name, in config order, duplicates included. */
  function EnabledTypes(enabled: seq<Option<string>>, entityTypes: seq<EntityType>): seq<EntityType> {
    if |enabled| == 0 then []
    else
      var t := Resolve(entityTypes, enabled[|enabled| - 1]);
      EnabledTypes(enabled[..|enabled| - 1], entityTypes) + if t.Some? then [t.value] else []
  }

  /**
   * The first loop registers the enabled eligible types once each, at
   * the position of their first mention.
   */
  lemma {:induction false} EnabledRegistryOrder(enabled: seq<Option<string>>, entityTypes: seq<EntityType>)
    ensures Consistent(EnabledRegistry(enabled, entityTypes))
    ensures KeysOf(EnabledRegistry(enabled, entityTypes)) == Dedup(EnabledTypes(enabled, entityTypes))
    decreases |enabled|
  {
    if |enabled| > 0 {
      var p := enabled[..|enabled| - 1];
      EnabledRegistryOrder(p, entityTypes);
      var t := Resolve(entityTypes, enabled[|enabled| - 1]);
      if t.Some? {
        RegisterKeys(EnabledRegistry(p, entityTypes), t.value);
        var e := EnabledTypes(enabled, entityTypes);
        assert e[..|e| - 1] == EnabledTypes(p, entityTypes);
        DedupElements(EnabledTypes(p, entityTypes), t.value);
      } else {
        assert EnabledTypes(enabled, entityTypes) == EnabledTypes(p, entityTypes);
      }
    }
  }

  /** The types of the list that are eligible and not yet registered, in list order, each once. */
  function Remaining(types: seq<EntityType>, taken: seq<EntityType>): seq<EntityType> {
    if |types| == 0 then []
    else
      var rest := Remaining(types[..|types| - 1], taken);
      var t := types[|types| - 1];
      if Eligible(t) && t !in taken && t !in rest then rest + [t] else rest
  }

  /** The second loop appends the remaining eligible types in enum order, keeping the registry consistent. */
  lemma {:induction false} CompletedRegistryOrder(r: Registry, types: seq<EntityType>)
    requires Consistent(r)
    ensures Consistent(CompletedRegistry(r, types))
    ensures KeysOf(CompletedRegistry(r, types)) == KeysOf(r) + Remaining(types, KeysOf(r))
    decreases |types|
  {
    if |types| > 0 {
      var p := types[..|types| - 1];
      CompletedRegistryOrder(r, p);
      var s := CompletedRegistry(r, p);
      var t := types[|types| - 1];
      if Eligible(t) && t !in KeysOf(s) {
        assert KeysOf(s + [(t, ObjectTypeFor(t))]) == KeysOf(s) + [t];
      }
    }
  }

  /**
   * The registration order: the enabled eligible types in config order,
   * each at its first mention, then every other eligible type in enum
   * order; every type is registered once, under its own object type.
   */
  lemma RegistrationOrder(enabled: seq<Option<string>>, entityTypes: seq<EntityType>)
    ensures Consistent(Registered(enabled, entityTypes))
    ensures var first := Dedup(EnabledTypes(enabled, entityTypes));
            KeysOf(Registered(enabled, entityTypes)) == first + Remaining(entityTypes, first)
  {
    EnabledRegistryOrder(enabled, entityTypes);
    CompletedRegistryOrder(EnabledRegistry(enabled, entityTypes), entityTypes);
  }

  lemma {:induction false} RemainingElements(types: seq<EntityType>, taken: seq<EntityType>, t: EntityType)
    ensures t in Remaining(types, taken) <==> t in types && Eligible(t) && t !in taken
    decreases |types|
  {
    if |types| > 0 {
      RemainingElements(types[..|types| - 1], taken, t);
      assert types == types[..|types| - 1] + [types[|types| - 1]];
    }
  }

  lemma {:induction false} EnabledTypesAreEligible(enabled: seq<Option<string>>, entityTypes: seq<EntityType>, t: EntityType)
    requires t in EnabledTypes(enabled, entityTypes)
    ensures t in entityTypes && Eligible(t)
    decreases |enabled|
  {
    if t !in EnabledTypes(enabled[..|enabled| - 1], entityTypes) {
      return;
    }
    EnabledTypesAreEligible(enabled[..|enabled| - 1], entityTypes, t);
  }

  /** Exactly the eligible entity types are registered. */
  lemma RegisteredTypes(enabled: seq<Option<string>>, entityTypes: seq<EntityType>, t: EntityType)
    ensures t in KeysOf(Registered(enabled, entityTypes)) <==> t in entityTypes && Eligible(t)
  {
    RegistrationOrder(enabled, entityTypes);
    var first := Dedup(EnabledTypes(enabled, entityTypes));
    DedupElements(EnabledTypes(enabled, entityTypes), t);
    RemainingElements(entityTypes, first, t);
    if t in EnabledTypes(enabled, entityTypes) {
      EnabledTypesAreEligible(enabled, entityTypes, t);
    }
  }
}
