/** Optional values, the failures the pipeline can raise, and a failure-compatible
    Result so that a chain of fallible steps reads like the original's straight-line
    code with exceptions bubbling up. */
module Wrappers {

  datatype Option<+T> = None | Some(value: T) {

    function GetOr(default: T): T {
      match this
      case Some(v) => v
      case None => default
    }
  }

  /** The exceptions the modelled code lets escape, one constructor per kind. */
  datatype Fault =
    | KeyError(key: string)              // a column or field name that is not mapped
    | IndexError                         // a row too short, or `records[-1]` of an empty list
    | ValueError(text: string)           // int()/float()/strptime() refused a string
    | TypeError                          // a cell of the wrong kind reached arithmetic or a date call
    | ZeroDivision                       // a rate whose day count is zero
    | NoSuchKey(key: string)             // a storage get of a missing object
    | DecodeError(key: string)           // a stored object that is not the expected document
    | PatternMissing(pattern: string)    // a bulletin pattern that did not match
    | DependencyError(status: int)       // the upstream server answered with a non-200 status

  datatype Result<+T> = Ok(value: T) | Err(fault: Fault) {

    predicate IsFailure() {
      Err?
    }

    function PropagateFailure<U>(): Result<U>
      requires Err?
    {
      Err(fault)
    }

    function Extract(): T
      requires Ok?
    {
      value
    }
  }

  /** An Option turned into a Result, failing with the given fault when absent. */
  function OrFail<T>(o: Option<T>, fault: Fault): (r: Result<T>)
    ensures r.Ok? <==> o.Some?
    ensures r.Ok? ==> r.value == o.value
    ensures r.Err? ==> r.fault == fault
  {
    match o
    case Some(v) => Ok(v)
    case None => Err(fault)
  }
}
