/** A lazily calculated value (Lazy): the supplier runs on the first get only. */
module LazyValue {
  import opened Wrappers

  class Lazy<T> {
    const supplier: () -> T
    var calculated: bool
    var value: Option<T>
    /** How often the supplier has run. */
    ghost var invocations: nat

    /** The supplier has run exactly when the value is calculated, and then once, giving the value. */
    ghost predicate Valid()
      reads this
    {
      invocations == (if calculated then 1 else 0) &&
      (calculated ==> value == Some(supplier()))
    }

    constructor (supplier: () -> T)
      ensures Valid() && this.supplier == supplier && !calculated && invocations == 0
    {
      this.supplier := supplier;
      calculated := false;
      value := None;
      invocations := 0;
    }

    /** get: the supplier's value, calculated on the first call and then kept. */
    method Get() returns (r: T)
      requires Valid()
      modifies this
      ensures Valid() && calculated && r == supplier() && value == Some(r)
      ensures invocations == 1 && invocations == old(invocations) + (if old(calculated) then 0 else 1)
    {
      if calculated {
        return value.value;
      }
      var v := supplier();
      value := Some(v);
      calculated := true;
      invocations := invocations + 1;
      return v;
    }
  }

  /** new Lazy(supplier): rejects a null supplier. */
  method NewLazy<T>(supplier: Option<() -> T>) returns (r: Result<Lazy<T>, string>)
    ensures supplier.None? <==> r.Failure?
    ensures r.Failure? ==> r.error == "supplier is null"
    ensures r.Success? ==> fresh(r.value) && r.value.Valid() && r.value.supplier == supplier.value &&
                           !r.value.calculated && r.value.invocations == 0
  {
    if supplier.None? {
      return Failure("supplier is null");
    }
    var lazy := new Lazy(supplier.value);
    return Success(lazy);
  }

  /**
   * A null result is cached too: with a supplier returning null, two gets
   * both give null and the supplier runs once.
   */
  method NullResultIsCached() returns (first: Option<int>, second: Option<int>, ghost invocations: nat)
    ensures first == None && second == None && invocations == 1
  {
    var lazy := new Lazy(() => None);
    first := lazy.Get();
    second := lazy.Get();
    invocations := lazy.invocations;
  }
}
