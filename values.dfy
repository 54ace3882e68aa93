/**
 * The generic value tree of persisted and serialized item data: a map with
 * insertion-ordered string keys (a LinkedHashMap or a configuration section),
 * a list, or a scalar, plus Java's null.
 */
module Values {

  datatype Value =
    | Null
    | Str(s: string)
    | Int(i: int)
    | Bool(b: bool)
    | List(items: seq<Value>)
    | Map(entries: seq<Entry>)

  /** One key/value pair of a map, in insertion order. */
  datatype Entry = Entry(key: string, val: Value)

  /** Java's Map.containsKey. */
  predicate HasKey(entries: seq<Entry>, k: string) {
    |entries| > 0 && (entries[0].key == k || HasKey(entries[1..], k))
  }

  /** A key is present exactly when some entry carries it. */
  lemma {:induction false} HasKeyIndex(entries: seq<Entry>, k: string)
    ensures HasKey(entries, k) <==> exists i :: 0 <= i < |entries| && entries[i].key == k
  {
    if |entries| > 0 {
      HasKeyIndex(entries[1..], k);
      if exists i :: 0 <= i < |entries| && entries[i].key == k {
        var i :| 0 <= i < |entries| && entries[i].key == k;
        if i > 0 { assert entries[1..][i - 1].key == k; }
      }
      if HasKey(entries[1..], k) {
        var i :| 0 <= i < |entries[1..]| && entries[1..][i].key == k;
        assert entries[i + 1].key == k;
      }
    }
  }

  /** Java's Map.get: the value stored under k, or null when there is none. */
  function Get(entries: seq<Entry>, k: string): (v: Value)
    ensures !HasKey(entries, k) ==> v == Null
  {
    if |entries| == 0 then Null
    else if entries[0].key == k then entries[0].val
    else Get(entries[1..], k)
  }

  /** The keys of a map are pairwise distinct (true of every Java map). */
  predicate UniqueKeys(entries: seq<Entry>) {
    forall i, j :: 0 <= i < j < |entries| ==> entries[i].key != entries[j].key
  }

  /** Every map in the tree has pairwise distinct keys. */
  predicate WellFormed(v: Value)
    decreases v
  {
    match v
    case List(items) => forall i :: 0 <= i < |items| ==> WellFormed(items[i])
    case Map(entries) =>
      UniqueKeys(entries) && forall i :: 0 <= i < |entries| ==> WellFormed(entries[i].val)
    case _ => true
  }

  /**
   * LinkedHashMap.put: overwrites the value of an existing key in its
   * position, or appends a new entry at the end.
   */
  function Put(entries: seq<Entry>, k: string, v: Value): (r: seq<Entry>)
    ensures HasKey(entries, k) ==> |r| == |entries|
    ensures !HasKey(entries, k) ==> r == entries + [Entry(k, v)]
    ensures forall i :: 0 <= i < |entries| ==> r[i].key == entries[i].key
  {
    if |entries| == 0 then [Entry(k, v)]
    else if entries[0].key == k then [Entry(k, v)] + entries[1..]
    else
      [entries[0]] + Put(entries[1..], k, v)
  }

  /** After put, the key maps to the new value and every other key is untouched. */
  lemma {:induction false} PutGet(entries: seq<Entry>, k: string, v: Value, k': string)
    ensures Get(Put(entries, k, v), k') == if k' == k then v else Get(entries, k')
    decreases |entries|
  {
    if |entries| > 0 && entries[0].key != k {
      PutGet(entries[1..], k, v, k');
    }
  }

  /** Put adds exactly the key it is given. */
  lemma {:induction false} PutHasKey(entries: seq<Entry>, k: string, v: Value, k': string)
    ensures HasKey(Put(entries, k, v), k') <==> HasKey(entries, k') || k' == k
    decreases |entries|
  {
    var r := Put(entries, k, v);
    if |entries| > 0 && entries[0].key == k {
      assert r[1..] == entries[1..];
    } else if |entries| > 0 {
      PutHasKey(entries[1..], k, v, k');
      assert r[1..] == Put(entries[1..], k, v);
    }
  }

  /** Put keeps the keys of a map distinct. */
  lemma PutUnique(entries: seq<Entry>, k: string, v: Value)
    requires UniqueKeys(entries)
    ensures UniqueKeys(Put(entries, k, v))
  {
    HasKeyIndex(entries, k);
  }

  /** In a map with distinct keys, looking up the key of an entry yields that entry's value. */
  lemma {:induction false} GetOfUniqueEntry(entries: seq<Entry>, i: nat)
    requires UniqueKeys(entries) && i < |entries|
    ensures Get(entries, entries[i].key) == entries[i].val
  {
    if i > 0 {
      assert entries[1..][i - 1] == entries[i];
      GetOfUniqueEntry(entries[1..], i - 1);
    }
  }

  /** The value Get returns comes from the first entry carrying the key. */
  lemma {:induction false} GetWitness(entries: seq<Entry>, k: string)
    requires HasKey(entries, k)
    ensures exists i :: 0 <= i < |entries| && entries[i].key == k && entries[i].val == Get(entries, k)
  {
    if entries[0].key != k {
      GetWitness(entries[1..], k);
      var i :| 0 <= i < |entries[1..]| && entries[1..][i].key == k && entries[1..][i].val == Get(entries[1..], k);
      assert entries[i + 1] == entries[1..][i];
    }
  }

  /**
   * Java's Object.equals on the value tree: maps are equal when they have
   * the same size and every entry's value equals the other map's value at
   * that key (order is ignored); lists are equal element by element.
   */
  predicate Equal(a: Value, b: Value)
    decreases a
  {
    match a
    case Map(ea) =>
      b.Map? && |ea| == |b.entries| &&
      forall i :: 0 <= i < |ea| ==> HasKey(b.entries, ea[i].key) && Equal(ea[i].val, Get(b.entries, ea[i].key))
    case List(ia) =>
      b.List? && |ia| == |b.items| &&
      forall i :: 0 <= i < |ia| ==> Equal(ia[i], b.items[i])
    case _ => a == b
  }

  /** Equality is reflexive on well-formed trees. */
  lemma {:induction false} EqualReflexive(v: Value)
    requires WellFormed(v)
    ensures Equal(v, v)
    decreases v
  {
    match v
    case Map(es) =>
      forall i | 0 <= i < |es| ensures HasKey(es, es[i].key) && Equal(es[i].val, Get(es, es[i].key)) {
        GetOfUniqueEntry(es, i);
        HasKeyIndex(es, es[i].key);
        EqualReflexive(es[i].val);
      }
    case List(items) =>
      forall i | 0 <= i < |items| ensures Equal(items[i], items[i]) {
        EqualReflexive(items[i]);
      }
    case _ =>
  }

  /** Equality is transitive (no well-formedness needed). */
  lemma {:induction false} EqualTransitive(a: Value, b: Value, c: Value)
    requires Equal(a, b) && Equal(b, c)
    ensures Equal(a, c)
    decreases a
  {
    match a
    case Map(ea) =>
      forall i | 0 <= i < |ea| ensures HasKey(c.entries, ea[i].key) && Equal(ea[i].val, Get(c.entries, ea[i].key)) {
        var k := ea[i].key;
        GetWitness(b.entries, k);
        var j :| 0 <= j < |b.entries| && b.entries[j].key == k && b.entries[j].val == Get(b.entries, k);
        EqualTransitive(ea[i].val, Get(b.entries, k), Get(c.entries, k));
      }
    case List(ia) =>
      forall i | 0 <= i < |ia| ensures Equal(ia[i], c.items[i]) {
        EqualTransitive(ia[i], b.items[i], c.items[i]);
      }
    case _ =>
  }

  /**
   * Maps holding the same entries in any order are Java-equal: equality of
   * maps ignores the insertion order of their keys.
   */
  lemma MapEqualityIgnoresOrder(ea: seq<Entry>, eb: seq<Entry>)
    requires WellFormed(Map(ea)) && UniqueKeys(eb)
    requires multiset(ea) == multiset(eb)
    ensures Equal(Map(ea), Map(eb))
  {
    assert |ea| == |multiset(ea)| == |multiset(eb)| == |eb|;
    forall i | 0 <= i < |ea| ensures HasKey(eb, ea[i].key) && Equal(ea[i].val, Get(eb, ea[i].key)) {
      assert ea[i] in multiset(eb);
      var j :| 0 <= j < |eb| && eb[j] == ea[i];
      HasKeyIndex(eb, ea[i].key);
      GetOfUniqueEntry(eb, j);
      EqualReflexive(ea[i].val);
    }
  }
}
