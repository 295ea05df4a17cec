/**
 * The KaptivateAPI singleton lifecycle (kaptivate/kaptivate.cpp): two static
 * fields, `instanceFlag` and `singleton`, assigned by getInstance and
 * destroyInstance. Whether `new` succeeds is an input; on failure the source
 * raises KaptivateException, modelled as a Failure result.
 */
module Singleton {
  import opened Wrappers

  /** The API object; its members are not part of this model. */
  class KaptivateAPI {
    constructor ()
    {
    }
  }

  datatype Error = KaptivateException(message: string)

  const AllocationMessage := "Unable to allocate memory for the Kaptivate singleton"

  /** The class's two static fields. */
  class Statics {
    var instanceFlag: bool
    var singleton: KaptivateAPI?

    /** The flag is set exactly when an instance is held. */
    ghost predicate Valid()
      reads this
    {
      instanceFlag <==> singleton != null
    }

    /** The fields as static initialisation leaves them. */
    constructor ()
      ensures !instanceFlag && singleton == null && Valid()
    {
      instanceFlag := false;
      singleton := null;
    }

    /**
     * getInstance: with the flag set, the held instance and no change;
     * otherwise a fresh instance that is then held, or, when allocation
     * fails, the exception and no change.
     */
    method GetInstance(allocationSucceeds: bool) returns (r: Result<KaptivateAPI?, Error>)
      modifies this
      ensures old(instanceFlag) ==> r == Success(old(singleton)) && unchanged(this)
      ensures !old(instanceFlag) && allocationSucceeds ==>
                r.Success? && r.value != null && fresh(r.value) &&
                instanceFlag && singleton == r.value
      ensures !old(instanceFlag) && !allocationSucceeds ==>
                r == Failure(KaptivateException(AllocationMessage)) && unchanged(this)
      ensures old(Valid()) ==> Valid()
    {
      if !instanceFlag {
        if !allocationSucceeds {
          return Failure(KaptivateException(AllocationMessage));
        }
        singleton := new KaptivateAPI();
        instanceFlag := true;
      }
      return Success(singleton);
    }

    /**
     * destroyInstance: a no-op unless the flag is set and an instance is
     * held; otherwise both fields are cleared. Deallocation is not modelled.
     */
    method DestroyInstance()
      modifies this
      ensures !old(instanceFlag) || old(singleton) == null ==> unchanged(this)
      ensures old(instanceFlag) && old(singleton) != null ==> !instanceFlag && singleton == null
      ensures old(Valid()) ==> Valid() && !instanceFlag && singleton == null
    {
      if !instanceFlag || singleton == null {
        return;
      }
      singleton := null;
      instanceFlag := false;
    }
  }

  /** Two getInstance calls hand back the same object; the second never allocates. */
  method GetInstanceTwice(statics: Statics, first: bool, second: bool)
    returns (a: Result<KaptivateAPI?, Error>, b: Result<KaptivateAPI?, Error>)
    requires statics.Valid()
    modifies statics
    ensures a.Success? ==> b == a
    ensures statics.Valid()
  {
    a := statics.GetInstance(first);
    b := statics.GetInstance(second);
  }

  /** After destroyInstance, getInstance creates a new instance rather than reusing one. */
  method RecreateAfterDestroy(statics: Statics)
    returns (before: Result<KaptivateAPI?, Error>, after: Result<KaptivateAPI?, Error>)
    requires statics.Valid()
    modifies statics
    ensures before.Success? && after.Success? && after.value != null
    ensures after.value != before.value && fresh(after.value)
    ensures statics.instanceFlag && statics.singleton == after.value
  {
    before := statics.GetInstance(true);
    statics.DestroyInstance();
    after := statics.GetInstance(true);
  }
}
