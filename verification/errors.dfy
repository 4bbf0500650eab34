/**
  Outcomes of the bridge's operations: the crate's `Error` enum, the
  validator's `UnsupportedProgramError`, and the reasons the Rust code
  aborts (an `assert!`, `unwrap`, `expect` or `panic!`). A Rust `?` is a
  Dafny `:-` on `Result`; a panic is the third variant of `Result` and
  propagates through `:-` the same way (it unwinds the whole call).
 */
module Errors {

  datatype Option<+T> = None | Some(value: T)

  /** `ivc_program::program::MalformedProgramError`; its cases are not part of this model. */
  datatype MalformedProgramError = MalformedProgramError(reason: string)

  /** Why `check_supported` refuses a program. */
  datatype UnsupportedProgramError =
    | MultipleFunctions(count: nat)
    | UnconstrainedFunctions(count: nat)
    | NonAssertZeroOpcode(opcode: string)
    | MalformedProgram(malformed: MalformedProgramError)

  /** `ivc_program::Error`, kept as its message. */
  datatype IvcError = IvcError(message: string)

  /** The crate's recoverable errors. */
  datatype Error =
    | UnsupportedProgram(unsupported: UnsupportedProgramError)
    | FieldConversionError(text: string)
    | InvalidInput
    | IVCProgramError(ivc: IvcError)
    | ACVMSolveError(status: string)

  /** The places where the Rust code aborts instead of returning an error. */
  datatype PanicReason =
    | FieldTypeMismatch                  // assert_types: the type pair is not (BN254 Fr, bn256 Fr)
    | HexParseFailure                    // from_str_radix(..).unwrap() in ff_to_ark_prime_field
    | ConversionExpect(message: string)  // .expect(..) on a field conversion
    | UnsupportedOpcode                  // opcode -> gate on a non-AssertZero opcode
    | PrivateOutputsNotReturned          // extract_io: private outputs not among the return values
    | EmptyWitnessSet                    // make_trivial_witness: max() of an empty set unwrapped
    | WitnessIdsNotDense                 // make_trivial_witness: max id != count - 1
    | OperandNotFound(message: string)   // make_step: "left not found" / "right not found"
    | InvalidInputAssertion              // execute: is_valid_input is asserted
    | NoirVersionMismatch                // load_circuit: pinned compiler version differs

  datatype Result<+T> = Ok(value: T) | Err(error: Error) | Panic(reason: PanicReason) {

    predicate IsFailure() {
      !Ok?
    }

    /** The failure carried over to another value type (`:-` only calls it on a failure; an `Ok` has none to carry). */
    function PropagateFailure<U>(): Result<U> {
      match this
      case Err(e) => Err(e)
      case Panic(p) => Panic(p)
      case Ok(_) => Err(InvalidInput)  // unreachable from `:-`
    }

    function Extract(): T
      requires Ok?
    {
      value
    }
  }

  /** A check that either passes or names what it found wrong. */
  datatype Outcome<+E> = Pass | Fail(error: E)

  /** `.expect(message)` on a `Result`: an error becomes an abort carrying the message. */
  function Expect<T>(r: Result<T>, message: string): (e: Result<T>)
    ensures e.Ok? <==> r.Ok?
    ensures e.Ok? ==> e.value == r.value
    ensures r.Err? ==> e == Panic(ConversionExpect(message))
    ensures r.Panic? ==> e == r
  {
    match r
    case Ok(v) => Ok(v)
    case Err(_) => Panic(ConversionExpect(message))
    case Panic(p) => Panic(p)
  }
}
