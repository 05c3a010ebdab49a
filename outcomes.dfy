/** The values every hardware unit returns: the nine interrupt causes that
    tag an error, the error record, the Rust `Result`, and the handlers'
    continue-or-stop verdict. They share one module because the error
    record needs the causes and the handlers need the error record. */
module Outcomes {

  /** The interrupt causes, with the discriminant each carries. */
  datatype Interrups =
    | Overflow | Underflow | DirInv | InstInv | EndIO | Clock | CallSys | CodIntInv | CodCallSysInv
  {
    function Code(): (n: nat)
      ensures n <= 8
    {
      match this
      case Overflow => 8
      case Underflow => 7
      case DirInv => 6
      case InstInv => 5
      case EndIO => 4
      case Clock => 3
      case CallSys => 2
      case CodIntInv => 1
      case CodCallSysInv => 0
    }
  }

  /** No two causes share a discriminant. */
  lemma CodesDistinct(a: Interrups, b: Interrups)
    ensures a.Code() == b.Code() ==> a == b
  {
  }

  /** An error: a human-readable message and the cause it raises. */
  datatype Errors = Errors(msg: string, cod: Interrups)

  datatype Result<+T, +E> = Ok(value: T) | Err(error: E)

  /** The outcome of an operation that yields nothing on success. */
  type ResultOp = Result<(), Errors>

  /** Whether the running program may go on after an interrupt handler. */
  datatype ContinueOrBreak = Continue | Break
}
