/**
 * Generic list and array helpers (Utils): first-occurrence replacement,
 * search by predicate, and array concatenation.
 */
module Utils {
  import opened Wrappers

  /** List.indexOf: the position of the first element equal to e, or -1 when there is none. */
  function IndexOf<E(==)>(s: seq<E>, e: E): (r: int)
    ensures -1 <= r < |s|
    ensures r == -1 <==> e !in s
    ensures r >= 0 ==> s[r] == e && forall k :: 0 <= k < r ==> s[k] != e
    decreases |s|
  {
    if |s| == 0 then -1
    else if s[0] == e then 0
    else
      var rest := IndexOf(s[1..], e);
      if rest == -1 then -1 else rest + 1
  }

  /** The list with its first element equal to e replaced, or unchanged when e does not occur. */
  function ReplaceFirst<E(==)>(s: seq<E>, e: E, replacement: E): seq<E> {
    var i := IndexOf(s, e);
    if i == -1 then s else s[i := replacement]
  }

  /**
   * ReplaceFirst changes at most one position: the first occurrence of e,
   * which it sets to the replacement; every other element stays.
   */
  lemma ReplaceFirstChangesOnlyFirst<E>(s: seq<E>, e: E, replacement: E)
    ensures |ReplaceFirst(s, e, replacement)| == |s|
    ensures e !in s ==> ReplaceFirst(s, e, replacement) == s
    ensures e in s ==> exists i :: 0 <= i < |s| && s[i] == e && (forall k :: 0 <= k < i ==> s[k] != e) &&
                                   ReplaceFirst(s, e, replacement) == s[i := replacement]
  {
    if e in s {
      var i := IndexOf(s, e);
      assert 0 <= i < |s| && s[i] == e && (forall k :: 0 <= k < i ==> s[k] != e);
    }
  }

  /**
   * replace: sets the first element equal to element to the replacement and
   * returns true, or returns false and leaves the list as it was.
   */
  method Replace<E(==)>(list: array<E>, element: E, replacement: E) returns (found: bool)
    modifies list
    ensures found <==> element in old(list[..])
    ensures list[..] == ReplaceFirst(old(list[..]), element, replacement)
  {
    ghost var before := list[..];
    for i := 0 to list.Length
      invariant list[..] == before
      invariant forall k :: 0 <= k < i ==> list[k] != element
    {
      if list[i] == element {
        assert IndexOf(before, element) == i;
        list[i] := replacement;
        return true;
      }
    }
    return false;
  }

  /** asList: the array's elements in order, or an empty list for a null array. */
  function AsList<E>(elements: array?<E>): (r: seq<E>)
    reads elements
    ensures elements == null ==> r == []
    ensures elements != null ==> |r| == elements.Length && forall i :: 0 <= i < |r| ==> r[i] == elements[i]
  {
    if elements == null then [] else elements[..]
  }

  /**
   * findFirst: the first element the predicate accepts, or null when none
   * does.
   */
  method FindFirst<E>(iterable: seq<E>, accepts: E -> bool) returns (r: Option<E>)
    ensures r.None? <==> forall i :: 0 <= i < |iterable| ==> !accepts(iterable[i])
    ensures r.Some? ==>
      exists i :: 0 <= i < |iterable| && iterable[i] == r.value && accepts(iterable[i]) &&
        (forall k :: 0 <= k < i ==> !accepts(iterable[k]))
  {
    for i := 0 to |iterable|
      invariant forall k :: 0 <= k < i ==> !accepts(iterable[k])
    {
      if accepts(iterable[i]) {
        return Some(iterable[i]);
      }
    }
    return None;
  }

  /** contains: whether the predicate accepts some element. */
  method Contains<E>(iterable: seq<E>, accepts: E -> bool) returns (r: bool)
    ensures r <==> exists i :: 0 <= i < |iterable| && accepts(iterable[i])
  {
    for i := 0 to |iterable|
      invariant forall k :: 0 <= k < i ==> !accepts(iterable[k])
    {
      if accepts(iterable[i]) {
        return true;
      }
    }
    return false;
  }

  /**
   * concat: a null first array gives the second array itself and a null
   * second array the first; otherwise a new array holding the first
   * array's elements followed by the second's.
   */
  method Concat<T>(first: array?<T>, second: array?<T>) returns (result: array?<T>)
    ensures first == null ==> result == second
    ensures first != null && second == null ==> result == first
    ensures first != null && second != null ==>
      result != null && fresh(result) && result[..] == first[..] + second[..]
  {
    if first == null {
      return second;
    }
    if second == null {
      return first;
    }
    var firstLength := first.Length;
    var secondLength := second.Length;
    result := new T[firstLength + secondLength](i requires 0 <= i < firstLength + secondLength reads first, second =>
      if i < firstLength then first[i] else second[i - firstLength]);
    assert result[..] == first[..] + second[..] by {
      forall i | 0 <= i < result.Length ensures result[i] == (first[..] + second[..])[i] {
      }
    }
  }
}
