/** Option for values JavaScript may leave undefined; Result for operations
    that may throw. */
module Wrappers {

  datatype Option<+T> = None | Some(value: T)

  datatype Result<+R, +E> = Success(value: R) | Failure(error: E) {

    /** Forgets the error, keeping only whether a value was produced. */
    function ToOption(): (r: Option<R>)
      ensures r.Some? <==> this.Success?
      ensures r.Some? ==> r.value == this.value
    {
      match this
      case Success(v) => Some(v)
      case Failure(_) => None
    }
  }
}
