/** Optional values and the failure outcome every rethrowing callback reports. */
module Wrappers {

  datatype Option<T> = None | Some(value: T)

  /** The end of a host callback: it returned normally, or it threw an Error carrying `message`. */
  datatype Outcome = Pass | Fail(message: string)

  /** A host call that throws `fault`'s message when one is given, and returns normally otherwise. */
  function Raise(fault: Option<string>): (r: Outcome)
    ensures r.Pass? <==> fault.None?
    ensures fault.Some? ==> r.message == fault.value
  {
    match fault
    case None => Pass
    case Some(m) => Fail(m)
  }
}
