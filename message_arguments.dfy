/**
 * Placeholder-argument sources for messages (CommonMessageArguments): a
 * plain map, a combination of two sources, and a source seen through a key
 * prefix. A missing argument and a null one are both None.
 */
module MessageArguments {
  import opened Wrappers

  datatype Arguments<V> =
    | MapArguments(arguments: map<string, Option<V>>)
    | Combined(first: Arguments<V>, second: Arguments<V>)
    | Prefixed(inner: Arguments<V>, keyPrefix: string)

  predicate StartsWith(key: string, prefix: string) {
    |prefix| <= |key| && key[..|prefix|] == prefix
  }

  /**
   * get: a map source looks the key up; a combined source answers from the
   * first source unless that has no (non-null) argument, then from the
   * second; a prefixed source has nothing for keys without the prefix and
   * otherwise looks up the key with the prefix removed.
   */
  function Get<V>(args: Arguments<V>, key: string): (r: Option<V>)
    ensures args.MapArguments? ==> (r.Some? ==> key in args.arguments && args.arguments[key] == r)
    ensures args.MapArguments? && key !in args.arguments ==> r.None?
    ensures args.Prefixed? && !StartsWith(key, args.keyPrefix) ==> r.None?
    decreases args
  {
    match args
    case MapArguments(arguments) => if key in arguments then arguments[key] else None
    case Combined(first, second) =>
      var argument := Get(first, key);
      if argument.Some? then argument else Get(second, key)
    case Prefixed(inner, keyPrefix) =>
      if !StartsWith(key, keyPrefix) then None else Get(inner, key[|keyPrefix|..])
  }

  /** new MapMessageArguments(arguments): rejects a null map. */
  function NewMapArguments<V>(arguments: Option<map<string, Option<V>>>): (r: Result<Arguments<V>, string>)
    ensures arguments.None? <==> r == Failure("arguments is null")
    ensures arguments.Some? ==> r == Success(MapArguments(arguments.value))
  {
    if arguments.None? then Failure("arguments is null") else Success(MapArguments(arguments.value))
  }

  /** new CombinedMessageArguments(first, second): rejects a null first, then a null second source. */
  function NewCombined<V>(first: Option<Arguments<V>>, second: Option<Arguments<V>>): (r: Result<Arguments<V>, string>)
    ensures r.Success? <==> first.Some? && second.Some?
    ensures first.None? ==> r == Failure("first is null")
    ensures first.Some? && second.None? ==> r == Failure("second is null")
    ensures r.Success? ==> r.value == Combined(first.value, second.value)
  {
    if first.None? then Failure("first is null")
    else if second.None? then Failure("second is null")
    else Success(Combined(first.value, second.value))
  }

  /** new PrefixedMessageArguments(arguments, keyPrefix): rejects a null source, then a null prefix. */
  function NewPrefixed<V>(arguments: Option<Arguments<V>>, keyPrefix: Option<string>): (r: Result<Arguments<V>, string>)
    ensures r.Success? <==> arguments.Some? && keyPrefix.Some?
    ensures arguments.None? ==> r == Failure("arguments is null")
    ensures arguments.Some? && keyPrefix.None? ==> r == Failure("keyPrefix is null")
    ensures r.Success? ==> r.value == Prefixed(arguments.value, keyPrefix.value)
  {
    if arguments.None? then Failure("arguments is null")
    else if keyPrefix.None? then Failure("keyPrefix is null")
    else Success(Prefixed(arguments.value, keyPrefix.value))
  }

  /** The non-null arguments of a map. */
  function Present<V>(m: map<string, Option<V>>): map<string, Option<V>> {
    map k | k in m && m[k].Some? :: m[k]
  }

  /**
   * Combining two map sources is looking up the union of their non-null
   * arguments in which the first source's win.
   */
  lemma CombinedMapsAreUnion<V>(a: map<string, Option<V>>, b: map<string, Option<V>>, key: string)
    ensures Get(Combined(MapArguments(a), MapArguments(b)), key) == Get(MapArguments(Present(b) + Present(a)), key)
  {
  }

  /** Combination is associative. */
  lemma CombinedAssociative<V>(a: Arguments<V>, b: Arguments<V>, c: Arguments<V>, key: string)
    ensures Get(Combined(Combined(a, b), c), key) == Get(Combined(a, Combined(b, c)), key)
  {
  }

  /** An empty map source is neutral on either side of a combination. */
  lemma EmptyMapIsNeutral<V>(a: Arguments<V>, key: string)
    ensures Get(Combined(MapArguments(map[]), a), key) == Get(a, key)
    ensures Get(Combined(a, MapArguments(map[])), key) == Get(a, key)
  {
  }

  /** The empty prefix changes nothing. */
  lemma EmptyPrefixIsIdentity<V>(a: Arguments<V>, key: string)
    ensures Get(Prefixed(a, ""), key) == Get(a, key)
  {
    assert key[0..] == key;
  }

  /** Prefixing twice is prefixing once with the two prefixes joined, outer first. */
  lemma NestedPrefixes<V>(a: Arguments<V>, inner: string, outer: string, key: string)
    ensures Get(Prefixed(Prefixed(a, inner), outer), key) == Get(Prefixed(a, outer + inner), key)
  {
    if StartsWith(key, outer + inner) {
      assert key[..|outer|] == (outer + inner)[..|outer|] == outer;
      var rest := key[|outer|..];
      assert rest[..|inner|] == key[|outer|..|outer| + |inner|] == inner;
      assert rest[|inner|..] == key[|outer + inner|..];
    }
  }
}
