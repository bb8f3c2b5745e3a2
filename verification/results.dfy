/** Failure-carrying values shared by every layer of the board controller. */
module Results {

  /** A value that may be absent. */
  datatype Option<+T> = None | Some(value: T)

  /** Either a value or an error, like Go's `(T, error)` pair. */
  datatype Result<+T, +E> = Ok(value: T) | Err(error: E)

  /** How a call can fail: with an error value carrying its message, or
      with a runtime panic that unwinds the whole process. */
  datatype Fault = Error(message: string) | Panic

  /** `fmt.Errorf(prefix + "%s", err)`: an error's message gains a prefix,
      a panic passes through untouched. */
  function Wrap(prefix: string, f: Fault): (g: Fault)
    ensures g.Panic? <==> f.Panic?
    ensures f.Error? ==> g.message == prefix + f.message
  {
    match f
    case Error(m) => Error(prefix + m)
    case Panic => Panic
  }
}
